// The billing cleanup run: what it may change, in what order, and what a completed run has established.
module BillingCleanup {
  import opened Options
  import opened Sorting

  // A digest, status or other text; only compared for equality.
  type Token(==, !new)

  // An identifier, as its rank in the order in which identifiers are sorted.
  type Id = int

  // ---------- Database snapshots ----------

  datatype Table = Attempts | Contexts | Contracts | Settlements | Grants | Revisions | UsageRows

  function Tables(): seq<Table> {
    [Attempts, Contexts, Contracts, Settlements, Grants, Revisions, UsageRows]
  }

  // A row and the identifier by which it is owned: the session id of a payment context, the id of any other row.
  datatype Row = Row(id: Id, content: Token)

  type Snapshot = Table -> seq<Row>

  datatype RowKind = CheckoutAttempt | PaymentContext | Contract | SettlementEffect | AreaGrant | ContractRevision |
    UsagePeriod | UsageEvent | AuthUser

  datatype OwnedRow = OwnedRow(kind: RowKind, id: Id, ownerAttemptId: Token)

  // Authentication users appear in no snapshot, and two kinds share the usage table.
  function TableOf(kind: RowKind): Option<Table> {
    match kind
    case CheckoutAttempt => Some(Attempts)
    case PaymentContext => Some(Contexts)
    case Contract => Some(Contracts)
    case SettlementEffect => Some(Settlements)
    case AreaGrant => Some(Grants)
    case ContractRevision => Some(Revisions)
    case UsagePeriod => Some(UsageRows)
    case UsageEvent => Some(UsageRows)
    case AuthUser => None
  }

  // ---------- Multiset difference ----------

  function CountOf(remaining: map<Row, nat>, row: Row): nat {
    if row in remaining then remaining[row] else 0
  }

  ghost predicate Counts(remaining: map<Row, nat>, rows: multiset<Row>) {
    forall row :: rows[row] == CountOf(remaining, row)
  }

  lemma CountOneMore(remaining: map<Row, nat>, rows: multiset<Row>, row: Row)
    requires Counts(remaining, rows)
    ensures Counts(remaining[row := CountOf(remaining, row) + 1], rows + multiset{row})
  {
  }

  // A row either uses up one of the baseline's or is left over.
  lemma TakeOneMore(remaining: map<Row, nat>, baseline: multiset<Row>, seen: multiset<Row>, row: Row)
    requires Counts(remaining, baseline - seen)
    ensures var count, next := CountOf(remaining, row), seen + multiset{row};
            if count > 0 then Counts(remaining[row := count - 1], baseline - next) && next - baseline == seen - baseline
            else Counts(remaining, baseline - next) && next - baseline == (seen - baseline) + multiset{row}
  {
    var count, next := CountOf(remaining, row), seen + multiset{row};
    assert count == (baseline - seen)[row];
    if count > 0 {
      forall r ensures (baseline - next)[r] == CountOf(remaining[row := count - 1], r) {
        assert (baseline - seen)[r] == CountOf(remaining, r);
      }
      assert next - baseline == seen - baseline;
    } else {
      assert next - baseline == (seen - baseline) + multiset{row};
    }
  }

  // Compares rows with a baseline by counting: what is left over, and whether anything of the baseline is gone.
  method RowsDifference(rows: seq<Row>, baseline: seq<Row>) returns (extras: seq<Row>, baselineMissing: bool)
    ensures multiset(extras) == multiset(rows) - multiset(baseline)
    ensures baselineMissing <==> !(multiset(baseline) <= multiset(rows))
  {
    var remaining: map<Row, nat> := map[];
    for i := 0 to |baseline|
      invariant Counts(remaining, multiset(baseline[..i]))
    {
      var row := baseline[i];
      assert baseline[..i + 1] == baseline[..i] + [row];
      CountOneMore(remaining, multiset(baseline[..i]), row);
      remaining := remaining[row := CountOf(remaining, row) + 1];
    }
    assert baseline[..|baseline|] == baseline;
    extras := [];
    ghost var base := multiset(baseline);
    for i := 0 to |rows|
      invariant Counts(remaining, base - multiset(rows[..i]))
      invariant multiset(extras) == multiset(rows[..i]) - base
    {
      var row := rows[i];
      ghost var seen := multiset(rows[..i]);
      assert rows[..i + 1] == rows[..i] + [row];
      assert multiset(rows[..i + 1]) == seen + multiset{row};
      TakeOneMore(remaining, base, seen, row);
      var count := CountOf(remaining, row);
      if count > 0 {
        remaining := remaining[row := count - 1];
      } else {
        extras := extras + [row];
      }
    }
    assert rows[..|rows|] == rows;
    baselineMissing := exists row :: row in remaining && remaining[row] > 0;
    LeftOver(remaining, base, multiset(rows));
  }

  lemma LeftOver(remaining: map<Row, nat>, baseline: multiset<Row>, rows: multiset<Row>)
    requires Counts(remaining, baseline - rows)
    ensures (exists row :: row in remaining && remaining[row] > 0) <==> !(baseline <= rows)
  {
    if baseline <= rows {
      forall row | row in remaining ensures remaining[row] == 0 {
        assert (baseline - rows)[row] == CountOf(remaining, row);
      }
    } else {
      var row :| baseline[row] > rows[row];
      assert (baseline - rows)[row] == CountOf(remaining, row) > 0;
      assert row in remaining && remaining[row] > 0;
    }
  }

  // ---------- The ownership projection ----------

  function IdsIn(owned: seq<OwnedRow>, table: Table): seq<Id> {
    if owned == [] then []
    else
      var last := owned[|owned| - 1];
      var ids := IdsIn(owned[..|owned| - 1], table);
      if TableOf(last.kind) == Some(table) then ids + [last.id] else ids
  }

  function Keys(rows: seq<Row>): seq<Id> {
    seq(|rows|, i requires 0 <= i < |rows| => rows[i].id)
  }

  predicate Distinct(ids: seq<Id>) {
    forall i, j :: 0 <= i < j < |ids| ==> ids[i] != ids[j]
  }

  // The rows a table has beyond its baseline are exactly the owned ones, each once, and the baseline is still there.
  ghost predicate Projects(baseline: seq<Row>, current: seq<Row>, expected: seq<Id>) {
    multiset(baseline) <= multiset(current) && Distinct(expected) &&
    exists extras :: Extra(extras, baseline, current) && multiset(Keys(extras)) == multiset(expected)
  }

  ghost predicate Extra(extras: seq<Row>, baseline: seq<Row>, current: seq<Row>) {
    multiset(extras) == multiset(current) - multiset(baseline)
  }

  ghost predicate Projected(baseline: Snapshot, current: Snapshot, owned: seq<OwnedRow>) {
    forall table :: Projects(baseline(table), current(table), IdsIn(owned, table))
  }

  lemma DistinctMultiplicity(ids: seq<Id>, id: Id)
    requires Distinct(ids)
    ensures multiset(ids)[id] <= 1
    decreases |ids|
  {
    if ids != [] {
      var rest := ids[..|ids| - 1];
      assert ids == rest + [ids[|ids| - 1]];
      DistinctMultiplicity(rest, id);
      if ids[|ids| - 1] == id {
        assert id !in rest;
      }
    }
  }

  // Same number, and every expected one is there: nothing more is needed to be the same identifiers.
  lemma SameIds(actual: seq<Id>, expected: seq<Id>)
    requires Distinct(expected)
    ensures (|actual| == |expected| && forall id :: id in expected ==> id in actual) <==>
            multiset(actual) == multiset(expected)
  {
    if |actual| == |expected| && forall id :: id in expected ==> id in actual {
      forall id ensures multiset(expected)[id] <= multiset(actual)[id] {
        DistinctMultiplicity(expected, id);
        if id in expected { assert id in multiset(actual); }
      }
      var rest := multiset(actual) - multiset(expected);
      assert multiset(actual) == multiset(expected) + rest;
      assert |rest| == 0;
    }
    if multiset(actual) == multiset(expected) {
      assert |multiset(actual)| == |multiset(expected)|;
      forall id | id in expected ensures id in actual {
        assert id in multiset(expected);
      }
    }
  }

  lemma KeysOfBoth(a: seq<Row>, b: seq<Row>)
    ensures Keys(a + b) == Keys(a) + Keys(b)
  {
  }

  lemma KeysWithout(b: seq<Row>, i: nat)
    requires i < |b|
    ensures multiset(b) == multiset(b[..i] + b[i + 1..]) + multiset{b[i]}
    ensures multiset(Keys(b)) == multiset(Keys(b[..i] + b[i + 1..])) + multiset{b[i].id}
  {
    assert b == b[..i] + ([b[i]] + b[i + 1..]);
    KeysOfBoth(b[..i], [b[i]] + b[i + 1..]);
    KeysOfBoth([b[i]], b[i + 1..]);
    KeysOfBoth(b[..i], b[i + 1..]);
    assert Keys([b[i]]) == [b[i].id];
  }

  // The identifiers depend only on which rows are left over, not on their order.
  lemma {:induction false} KeysOfSameRows(a: seq<Row>, b: seq<Row>)
    requires multiset(a) == multiset(b)
    ensures multiset(Keys(a)) == multiset(Keys(b))
    decreases |a|
  {
    assert |a| == |multiset(a)| == |multiset(b)| == |b|;
    if a == [] {
    } else {
      assert a[0] in multiset(b);
      var i :| 0 <= i < |b| && b[i] == a[0];
      var rest := b[..i] + b[i + 1..];
      KeysWithout(b, i);
      KeysWithout(a, 0);
      assert a[..0] + a[0 + 1..] == a[1..];
      SameRest(multiset(a[1..]), multiset(rest), a[0]);
      KeysOfSameRows(a[1..], rest);
    }
  }

  method VerifyTable(baseline: seq<Row>, current: seq<Row>, expected: seq<Id>) returns (ok: bool)
    ensures ok <==> Projects(baseline, current, expected)
  {
    var extras, baselineMissing := RowsDifference(current, baseline);
    assert Extra(extras, baseline, current);
    if baselineMissing { return false; }
    if exists i, j :: 0 <= i < j < |expected| && expected[i] == expected[j] { return false; }
    var actual := Keys(extras);
    SameIds(actual, expected);
    forall others | Extra(others, baseline, current) ensures multiset(Keys(others)) == multiset(actual) {
      KeysOfSameRows(others, extras);
    }
    if exists id :: id in actual && id !in expected {
      var id :| id in actual && id !in expected;
      assert id in multiset(actual) && id !in multiset(expected);
      return false;
    }
    if |actual| != |expected| || exists id :: id in expected && id !in actual { return false; }
    ok := true;
  }

  method VerifyDatabaseOwnershipProjection(baseline: Snapshot, current: Snapshot, owned: seq<OwnedRow>)
    returns (ok: bool)
    ensures ok <==> Projected(baseline, current, owned)
  {
    hide Projects;
    var tables := Tables();
    for i := 0 to |tables|
      invariant forall j :: 0 <= j < i ==> Projects(baseline(tables[j]), current(tables[j]), IdsIn(owned, tables[j]))
    {
      var verified := VerifyTable(baseline(tables[i]), current(tables[i]), IdsIn(owned, tables[i]));
      if !verified { return false; }
    }
    forall table ensures Projects(baseline(table), current(table), IdsIn(owned, table)) {
      EveryTableIsListed(table);
    }
    ok := true;
  }

  lemma EveryTableIsListed(table: Table)
    ensures table in Tables()
  {
    var tables := Tables();
    assert tables[0] == Attempts && tables[1] == Contexts && tables[2] == Contracts && tables[3] == Settlements &&
           tables[4] == Grants &&
           tables[5] == Revisions && tables[6] == UsageRows;
  }

  ghost predicate SameRows(one: Snapshot, other: Snapshot) {
    forall table :: multiset(one(table)) == multiset(other(table))
  }

  // Every snapshot is read with its tables sorted, in the order `collates` gives to the texts of rows.
  function Read(snapshot: Snapshot, collates: (Row, Row) -> bool): Snapshot {
    (table: Table) => Sort(snapshot(table), collates)
  }

  // How two snapshots are compared: both are sorted once more and then compared row by row.
  predicate SnapshotsEqual(one: Snapshot, other: Snapshot, collates: (Row, Row) -> bool) {
    forall table | table in Tables() :: Read(one, collates)(table) == Read(other, collates)(table)
  }

  lemma ReadingKeepsRows(snapshot: Snapshot, collates: (Row, Row) -> bool)
    ensures SameRows(Read(snapshot, collates), snapshot)
  {
    forall table ensures multiset(Read(snapshot, collates)(table)) == multiset(snapshot(table)) {
      SortKeepsElements(snapshot(table), collates);
    }
  }

  ghost predicate NoTies(collates: (Row, Row) -> bool) {
    forall x, y :: !collates(x, y) && !collates(y, x) ==> x == y
  }

  lemma EqualSnapshotsHaveTheSameRows(one: Snapshot, other: Snapshot, collates: (Row, Row) -> bool)
    requires SnapshotsEqual(one, other, collates)
    ensures SameRows(one, other)
  {
    forall table ensures multiset(one(table)) == multiset(other(table)) {
      EveryTableIsListed(table);
      SortKeepsElements(one(table), collates);
      SortKeepsElements(other(table), collates);
      assert Read(one, collates)(table) == Read(other, collates)(table);
    }
  }

  // Comparing snapshots is comparing tables as multisets exactly where the order tells all different rows apart.
  lemma ComparisonIsOfMultisets(collates: (Row, Row) -> bool)
    requires Orders(collates)
    ensures (forall one, other :: SnapshotsEqual(one, other, collates) <==> SameRows(one, other)) <==> NoTies(collates)
  {
    hide Orders;
    if NoTies(collates) {
      forall one, other ensures SnapshotsEqual(one, other, collates) <==> SameRows(one, other) {
        if SnapshotsEqual(one, other, collates) { EqualSnapshotsHaveTheSameRows(one, other, collates); }
        if SameRows(one, other) { SameRowsAreEqual(one, other, collates); }
      }
    } else {
      var x, y :| !collates(x, y) && !collates(y, x) && x != y;
      TiedRowsDiffer(x, y, collates);
      assert SameRows(OneTable([x, y]), OneTable([y, x])) &&
             !SnapshotsEqual(OneTable([x, y]), OneTable([y, x]), collates);
    }
  }

  lemma SameRowsAreEqual(one: Snapshot, other: Snapshot, collates: (Row, Row) -> bool)
    requires Orders(collates) && NoTies(collates) && SameRows(one, other)
    ensures SnapshotsEqual(one, other, collates)
  {
    hide Orders;
    forall table | table in Tables() ensures Read(one, collates)(table) == Read(other, collates)(table) {
      SortingCompares(one(table), other(table), collates);
    }
  }

  function OneTable(rows: seq<Row>): Snapshot {
    (table: Table) => if table == Attempts then rows else []
  }

  lemma TiedRowsDiffer(x: Row, y: Row, collates: (Row, Row) -> bool)
    requires Orders(collates) && !collates(x, y) && !collates(y, x) && x != y
    ensures SameRows(OneTable([x, y]), OneTable([y, x]))
    ensures !SnapshotsEqual(OneTable([x, y]), OneTable([y, x]), collates)
  {
    TiedPairStays(x, y, collates);
    TiedPairStays(y, x, collates);
    EveryTableIsListed(Attempts);
    assert Read(OneTable([x, y]), collates)(Attempts) != Read(OneTable([y, x]), collates)(Attempts);
    forall table ensures multiset(OneTable([x, y])(table)) == multiset(OneTable([y, x])(table)) {
      assert multiset([x, y]) == multiset{x, y} == multiset([y, x]);
    }
  }

  lemma TiedPairStays(x: Row, y: Row, collates: (Row, Row) -> bool)
    requires !collates(y, x)
    ensures Sort([x, y], collates) == [x, y]
  {
    assert [x, y][..1] == [x] && [x][..0] == [];
    assert Sort([x], collates) == [x];
    assert Insert(y, [x], collates) == [x] + Insert(y, [x][1..], collates);
  }

  // Owning nothing leaves nothing to differ.
  lemma NothingOwnedIsBaseline(baseline: Snapshot, current: Snapshot)
    ensures Projected(baseline, current, []) <==> SameRows(baseline, current)
  {
    forall table
      ensures Projects(baseline(table), current(table), IdsIn([], table)) <==>
              multiset(baseline(table)) == multiset(current(table))
    {
      var base, cur := multiset(baseline(table)), multiset(current(table));
      if Projects(baseline(table), current(table), []) {
        var extras :| Extra(extras, baseline(table), current(table)) && multiset(Keys(extras)) == multiset([]);
        assert |Keys(extras)| == |multiset(Keys(extras))| == 0;
        assert cur == base + (cur - base);
      }
      if base == cur {
        assert Extra([], baseline(table), current(table));
        assert Keys([]) == [];
      }
    }
    hide Projects;
  }

  // ---------- Provider resources ----------

  datatype ResourceType = Customer | CheckoutSession | PaymentIntent | Invoice | Subscription | Charge | SetupIntent |
    ProviderEvent

  datatype Status = Open | Expired | Complete | Active | Trialing | PastDue | Unpaid | Incomplete | Paused | Canceled |
    IncompleteExpired | OtherStatus(text: Token)

  datatype Resource = Resource(
    id: Id, kind: ResourceType, status: Status, ownerAttemptId: Token, accountId: Token, livemode: bool, sequence: nat)

  datatype Action = ExpireSession | CancelSubscription

  datatype Retention = RetainedCustomer | ExpiredSession | CompletedSession | RetainedSubscription |
    CanceledSubscription | FinancialObject

  datatype Plan = Act(action: Action, after: Status) | Keep(retention: Retention) | Unsupported

  function ProviderAction(r: Resource): Plan {
    match r.kind
    case Customer => Keep(RetainedCustomer)
    case CheckoutSession =>
      if r.status == Open then Act(ExpireSession, Expired)
      else if r.status == Expired then Keep(ExpiredSession)
      else if r.status == Complete then Keep(CompletedSession)
      else Unsupported
    case Subscription =>
      if r.status in {Active, Trialing, PastDue, Unpaid, Incomplete, Paused} then Act(CancelSubscription, Canceled)
      else if r.status in {Canceled, IncompleteExpired} then Keep(CanceledSubscription)
      else Unsupported
    case _ => Keep(FinancialObject)
  }

  // What is reported to be left of a resource; None when its state is not supported.
  function RetentionOf(r: Resource): Option<Retention> {
    match ProviderAction(r)
    case Keep(retention) => Some(retention)
    case Act(_, _) => Some(if r.kind == CheckoutSession then ExpiredSession else RetainedSubscription)
    case Unsupported => None
  }

  // `kindOf` is the type that an identifier's prefix names.
  datatype Owner = Owner(attemptId: Token, accountId: Token, resourceIds: set<Id>, kindOf: Id -> ResourceType)

  predicate ValidResource(r: Resource, owner: Owner) {
    owner.kindOf(r.id) == r.kind && r.ownerAttemptId == owner.attemptId && r.accountId == owner.accountId &&
    !r.livemode && r.id in owner.resourceIds
  }

  predicate ValidInventory(resources: seq<Resource>, owner: Owner) {
    (forall i :: 0 <= i < |resources| ==> ValidResource(resources[i], owner)) &&
    forall i, j :: 0 <= i < j < |resources| ==> resources[i].id != resources[j].id
  }

  predicate ValidRows(rows: seq<OwnedRow>, owner: Owner) {
    (forall i :: 0 <= i < |rows| ==> rows[i].ownerAttemptId == owner.attemptId) &&
    forall i, j :: 0 <= i < j < |rows| ==> rows[i].kind != rows[j].kind || rows[i].id != rows[j].id
  }

  // The place of a kind's table among the tables in which owned rows are kept, by schema and then by name.
  function TableRank(kind: RowKind): nat {
    match kind
    case AuthUser => 0
    case AreaGrant => 1
    case CheckoutAttempt => 2
    case ContractRevision => 3
    case Contract => 4
    case PaymentContext => 5
    case SettlementEffect => 6
    case UsageEvent => 7
    case UsagePeriod => 8
  }

  predicate RowBefore(a: OwnedRow, b: OwnedRow) {
    TableRank(a.kind) < TableRank(b.kind) || (a.kind == b.kind && a.id < b.id)
  }

  // How two inventories of owned rows are compared.
  predicate SameInventory(before: seq<OwnedRow>, after: seq<OwnedRow>) {
    Sort(before, RowBefore) == Sort(after, RowBefore)
  }

  // As inventories name each row once, comparing them is comparing them as multisets.
  lemma InventoriesCompare(before: seq<OwnedRow>, after: seq<OwnedRow>, owner: Owner)
    requires ValidRows(before, owner)
    ensures SameInventory(before, after) <==> multiset(before) == multiset(after)
  {
    SortingCompares(before, after, RowBefore);
  }

  predicate Earlier(a: Resource, b: Resource) {
    a.sequence < b.sequence || (a.sequence == b.sequence && a.id < b.id)
  }

  function Acting(resources: seq<Resource>): (acting: seq<Resource>)
    ensures forall i :: 0 <= i < |acting| ==> ProviderAction(acting[i]).Act?
  {
    if resources == [] then []
    else
      var last := resources[|resources| - 1];
      var rest := Acting(resources[..|resources| - 1]);
      if ProviderAction(last).Act? then [last] + rest else rest
  }

  // The resources to act on, the latest first.
  function ToActOn(resources: seq<Resource>): (acting: seq<Resource>)
    ensures forall i :: 0 <= i < |acting| ==> ProviderAction(acting[i]).Act?
  {
    Acting(Sort(resources, Earlier))
  }

  // What the inventory shows of a resource.
  datatype Fact = Fact(id: Id, kind: ResourceType, status: Status)

  predicate SmallerId(a: Fact, b: Fact) {
    a.id < b.id
  }

  function FactOf(r: Resource): Fact {
    Fact(r.id, r.kind, r.status)
  }

  function ExpectedFact(r: Resource): Fact {
    var plan := ProviderAction(r);
    Fact(r.id, r.kind, if plan.Act? then plan.after else r.status)
  }

  function Facts(resources: seq<Resource>): (facts: seq<Fact>)
    ensures |facts| == |resources|
  {
    seq(|resources|, i requires 0 <= i < |resources| => FactOf(resources[i]))
  }

  function ExpectedFacts(resources: seq<Resource>): (facts: seq<Fact>)
    ensures |facts| == |resources|
  {
    seq(|resources|, i requires 0 <= i < |resources| => ExpectedFact(resources[i]))
  }

  predicate DistinctFacts(facts: seq<Fact>) {
    forall i, j :: 0 <= i < j < |facts| ==> facts[i].id != facts[j].id
  }

  // Comparing sorted inventories is comparing them as multisets.
  lemma SortedFactsCompare(a: seq<Fact>, b: seq<Fact>)
    requires DistinctFacts(a)
    ensures Sort(a, SmallerId) == Sort(b, SmallerId) <==> multiset(a) == multiset(b)
  {
    SortingCompares(a, b, SmallerId);
  }

  // ---------- What is submitted ----------

  datatype RetainedObject = RetainedObject(id: Id, kind: ResourceType, retention: Retention)

  datatype Projection = Projection(mutated: seq<Id>, retained: seq<RetainedObject>)

  const MAX_PROJECTED: nat := 100

  function SummarizedRetained(resources: seq<Resource>): seq<RetainedObject> {
    if resources == [] then []
    else
      var last := resources[|resources| - 1];
      var rest := SummarizedRetained(resources[..|resources| - 1]);
      if RetentionOf(last).Some? then rest + [RetainedObject(last.id, last.kind, RetentionOf(last).value)] else rest
  }

  predicate SmallerRetained(a: RetainedObject, b: RetainedObject) {
    a.id < b.id
  }

  function Ids(resources: seq<Resource>): seq<Id> {
    seq(|resources|, i requires 0 <= i < |resources| => resources[i].id)
  }

  function ProjectionOf(resources: seq<Resource>): Projection {
    var initial := Sort(resources, Earlier);
    Projection(Ids(Acting(initial)), Sort(SummarizedRetained(initial), SmallerRetained))
  }

  predicate RetentionAllowed(kind: ResourceType, retention: Retention) {
    match kind
    case Customer => retention == RetainedCustomer
    case CheckoutSession => retention == ExpiredSession || retention == CompletedSession
    case Subscription => retention == RetainedSubscription || retention == CanceledSubscription
    case _ => retention == FinancialObject
  }

  // What the attempt store demands of a projection before it cleans an attempt up.
  predicate ProjectionAccepted(p: Projection, kindOf: Id -> ResourceType) {
    |p.mutated| <= MAX_PROJECTED && |p.retained| <= MAX_PROJECTED && Distinct(p.mutated) &&
    (forall i :: 0 <= i < |p.mutated| ==>
       kindOf(p.mutated[i]) == CheckoutSession || kindOf(p.mutated[i]) == Subscription) &&
    (forall i :: 0 <= i < |p.retained| ==>
       kindOf(p.retained[i].id) == p.retained[i].kind &&
       RetentionAllowed(p.retained[i].kind, p.retained[i].retention)) &&
    forall i, j :: 0 <= i < j < |p.retained| ==> p.retained[i].id != p.retained[j].id
  }

  // What is reported of a resource tells the status it is expected to end with.
  lemma RetentionTellsFinalStatus(r: Resource)
    requires RetentionOf(r).Some?
    ensures RetentionAllowed(r.kind, RetentionOf(r).value)
    ensures var final, retention := ExpectedFact(r).status, RetentionOf(r).value;
            (retention == ExpiredSession <==> r.kind == CheckoutSession && final == Expired) &&
            (retention == CompletedSession <==> r.kind == CheckoutSession && final == Complete) &&
            (retention == RetainedSubscription || retention == CanceledSubscription <==>
             r.kind == Subscription && (final == Canceled || final == IncompleteExpired)) &&
            (retention == RetainedSubscription ==> ProviderAction(r) == Act(CancelSubscription, Canceled))
  {
  }

  lemma {:induction false} SummaryIsComplete(resources: seq<Resource>)
    requires AllSupported(resources)
    ensures |SummarizedRetained(resources)| == |resources|
    ensures forall i :: 0 <= i < |resources| ==>
              RetentionOf(resources[i]).Some? &&
              SummarizedRetained(resources)[i] ==
                RetainedObject(resources[i].id, resources[i].kind, RetentionOf(resources[i]).value)
    decreases |resources|
  {
    if resources == [] {
    } else {
      SummaryIsComplete(resources[..|resources| - 1]);
    }
  }

  // The store accepts what a run would submit exactly when the attempt owns no more resources than a projection may
  // list.
  lemma ProjectionFitsUpToItsLimit(resources: seq<Resource>, owner: Owner)
    requires ValidInventory(resources, owner) && AllSupported(resources)
    ensures ProjectionAccepted(ProjectionOf(resources), owner.kindOf) <==> |resources| <= 100
  {
    hide ProviderAction, RetentionOf, Orders, RetentionAllowed;
    var initial := Sort(resources, Earlier);
    SortKeepsElements(resources, Earlier);
    SortedResourcesAgree(resources, owner);
    ActedOnAgree(initial, owner);
    SummaryIsComplete(initial);
    SortedSummaryAgrees(initial, owner);
    SortKeepsElements(SummarizedRetained(initial), SmallerRetained);
  }

  lemma SortedResourcesAgree(resources: seq<Resource>, owner: Owner)
    requires ValidInventory(resources, owner) && AllSupported(resources)
    ensures var initial := Sort(resources, Earlier);
            AllSupported(initial) && (forall r :: r in initial ==> owner.kindOf(r.id) == r.kind) &&
            forall i, j :: 0 <= i < j < |initial| ==> initial[i].id != initial[j].id
  {
    hide ProviderAction, Orders;
    var initial := Sort(resources, Earlier);
    SortKeepsElements(resources, Earlier);
    SupportedInAnyOrder(resources, initial);
    DistinctSortEarlier(resources);
    forall i, j | 0 <= i < j < |initial| ensures initial[i].id != initial[j].id {
      assert Earlier(initial[i], initial[j]);
      assert initial[i] in resources && initial[j] in resources;
      var m :| 0 <= m < |resources| && resources[m] == initial[i];
      var n :| 0 <= n < |resources| && resources[n] == initial[j];
      assert m != n;
    }
  }

  lemma {:induction false} ActedOnAgree(initial: seq<Resource>, owner: Owner)
    requires forall r :: r in initial ==> owner.kindOf(r.id) == r.kind
    requires forall i, j :: 0 <= i < j < |initial| ==> initial[i].id != initial[j].id
    ensures var ids := Ids(Acting(initial));
            |ids| <= |initial| && Distinct(ids) &&
            (forall i :: 0 <= i < |ids| ==> exists r :: r in initial && r.id == ids[i]) &&
            forall i :: 0 <= i < |ids| ==>
              owner.kindOf(ids[i]) == CheckoutSession || owner.kindOf(ids[i]) == Subscription
    decreases |initial|
  {
    if initial == [] {
    } else {
      var rest, last := initial[..|initial| - 1], initial[|initial| - 1];
      ActedOnAgree(rest, owner);
      var ids := Ids(Acting(rest));
      forall i | 0 <= i < |ids| ensures ids[i] != last.id {
        var r :| r in rest && r.id == ids[i];
      }
      assert forall r :: r in rest ==> r in initial;
      assert last in initial;
      if ProviderAction(last).Act? {
        assert Ids(Acting(initial)) == [last.id] + ids;
      }
    }
  }

  lemma SortedSummaryAgrees(initial: seq<Resource>, owner: Owner)
    requires AllSupported(initial)
    requires forall r :: r in initial ==> owner.kindOf(r.id) == r.kind
    requires forall i, j :: 0 <= i < j < |initial| ==> initial[i].id != initial[j].id
    ensures var retained := Sort(SummarizedRetained(initial), SmallerRetained);
            (forall i :: 0 <= i < |retained| ==>
               owner.kindOf(retained[i].id) == retained[i].kind &&
               RetentionAllowed(retained[i].kind, retained[i].retention)) &&
            forall i, j :: 0 <= i < j < |retained| ==> retained[i].id != retained[j].id
  {
    hide ProviderAction, RetentionOf, Orders, Sort, SummarizedRetained, RetentionAllowed;
    var summary := SummarizedRetained(initial);
    var retained := Sort(summary, SmallerRetained);
    SummaryIsComplete(initial);
    SortKeepsElements(summary, SmallerRetained);
    DistinctSortRetained(summary);
    forall i | 0 <= i < |retained|
      ensures owner.kindOf(retained[i].id) == retained[i].kind &&
              RetentionAllowed(retained[i].kind, retained[i].retention)
    {
      assert retained[i] in summary;
      var j :| 0 <= j < |summary| && summary[j] == retained[i];
      assert initial[j] in initial;
      RetentionTellsFinalStatus(initial[j]);
    }
  }

  lemma {:induction false} DistinctSortRetained(objects: seq<RetainedObject>)
    requires forall i, j :: 0 <= i < j < |objects| ==> objects[i].id != objects[j].id
    ensures StrictlySorted(Sort(objects, SmallerRetained), SmallerRetained)
    decreases |objects|
  {
    if objects == [] {
    } else {
      var rest, last := objects[..|objects| - 1], objects[|objects| - 1];
      DistinctSortRetained(rest);
      SortKeepsElements(rest, SmallerRetained);
      forall i | 0 <= i < |rest| ensures Sort(rest, SmallerRetained)[i].id != last.id {
        assert Sort(rest, SmallerRetained)[i] in rest;
      }
      InsertStrictlyBefore(last, Sort(rest, SmallerRetained), SmallerRetained);
    }
  }

  // ---------- The run ----------

  datatype Observation = Observation(resources: seq<Resource>, rows: seq<OwnedRow>, snapshot: Snapshot)

  datatype Opening = Opening(pendingIntents: nat, baseline: Snapshot, seen: Observation)

  // Everything a run is told: how texts are ordered, what it reads (None when reading fails or the attempt is not
  // current), and which of its calls succeed. `releases` is whether the store would clean the attempt up if it accepts
  // what is submitted.
  datatype World = World(
    owner: Owner, collates: (Row, Row) -> bool, opening: Option<Opening>, canObserveIntents: bool, mutates: Id -> bool,
    reconciles: Id -> bool, cleansFixtures: bool, closing: Option<Observation>, releases: bool)

  datatype Effect = Mutate(id: Id, action: Action) | Reconcile(id: Id) | CleanFixtures | Release

  function Work(acting: seq<Resource>): seq<Effect>
    requires forall i :: 0 <= i < |acting| ==> ProviderAction(acting[i]).Act?
  {
    if acting == [] then []
    else
      var last := acting[|acting| - 1];
      Work(acting[..|acting| - 1]) + [Mutate(last.id, ProviderAction(last).action), Reconcile(last.id)]
  }

  predicate Succeeds(w: World, e: Effect) {
    match e
    case Mutate(id, _) => w.mutates(id)
    case Reconcile(id) => w.reconciles(id)
    case CleanFixtures => w.cleansFixtures
    case Release =>
      w.opening.Some? && w.releases && ProjectionAccepted(ProjectionOf(w.opening.value.seen.resources), w.owner.kindOf)
  }

  predicate AllSupported(resources: seq<Resource>) {
    forall i :: 0 <= i < |resources| ==> !ProviderAction(resources[i]).Unsupported?
  }

  // The run may start changing things: nothing is pending, all that is owned is known, and the tables are at the
  // baseline.
  ghost predicate Opens(w: World) {
    w.opening.Some? && w.opening.value.pendingIntents == 0 &&
    var seen := w.opening.value.seen;
    ValidInventory(seen.resources, w.owner) && seen.rows == [] && SameRows(w.opening.value.baseline, seen.snapshot) &&
    AllSupported(seen.resources) && (ToActOn(seen.resources) != [] ==> w.canObserveIntents)
  }

  // What is seen at the end is what was predicted, with no row owned and the tables still at the baseline.
  ghost predicate Reobserves(w: World) requires w.opening.Some? {
    w.closing.Some? &&
    var seen := w.closing.value;
    ValidInventory(seen.resources, w.owner) && seen.rows == [] && SameRows(w.opening.value.baseline, seen.snapshot) &&
    multiset(Facts(seen.resources)) == multiset(ExpectedFacts(w.opening.value.seen.resources))
  }

  // And the two snapshots compare as equal.
  ghost predicate Closes(w: World) requires w.opening.Some? {
    Reobserves(w) && SnapshotsEqual(w.opening.value.seen.snapshot, w.closing.value.snapshot, w.collates)
  }

  function FullWork(w: World): seq<Effect> requires w.opening.Some? {
    Work(ToActOn(w.opening.value.seen.resources)) + [CleanFixtures, Release]
  }

  lemma {:induction false} WorkIsInOrder(acting: seq<Resource>, n: nat)
    requires n <= |acting| && forall i :: 0 <= i < |acting| ==> ProviderAction(acting[i]).Act?
    ensures Work(acting[..n]) <= Work(acting)
    ensures n < |acting| ==>
              Work(acting[..n + 1]) == Work(acting[..n]) +
                [Mutate(acting[n].id, ProviderAction(acting[n]).action), Reconcile(acting[n].id)]
    decreases |acting|
  {
    if n < |acting| {
      assert acting[..n + 1][..n] == acting[..n];
      var rest := acting[..|acting| - 1];
      WorkIsInOrder(rest, n);
      assert rest[..n] == acting[..n];
    } else {
      assert acting[..n] == acting;
    }
  }

  // Reads and checks everything before anything is changed.
  method OpenRun(w: World) returns (initial: Option<seq<Resource>>)
    ensures initial.Some? <==> Opens(w)
    ensures initial.Some? ==> initial.value == Sort(w.opening.value.seen.resources, Earlier)
  {
    hide SameRows, Projected;
    if w.opening.None? { return None; }
    var opening := w.opening.value;
    if opening.pendingIntents != 0 { return None; }
    if !ValidInventory(opening.seen.resources, w.owner) { return None; }
    var sorted := Sort(opening.seen.resources, Earlier);
    if !ValidRows(opening.seen.rows, w.owner) { return None; }
    var baseline, before := Read(opening.baseline, w.collates), Read(opening.seen.snapshot, w.collates);
    var verified := VerifyDatabaseOwnershipProjection(baseline, before, opening.seen.rows);
    NothingOwnedIsBaseline(baseline, before);
    ReadingBothKeepsSameness(opening.baseline, opening.seen.snapshot, w.collates);
    if !verified { return None; }
    if opening.seen.rows != [] { return None; }
    SortKeepsElements(opening.seen.resources, Earlier);
    SupportedInAnyOrder(opening.seen.resources, sorted);
    if !AllSupported(sorted) { return None; }
    if Acting(sorted) != [] && !w.canObserveIntents { return None; }
    initial := Some(sorted);
  }

  lemma SupportedInAnyOrder(a: seq<Resource>, b: seq<Resource>)
    requires forall r :: r in a <==> r in b
    ensures AllSupported(a) <==> AllSupported(b)
  {
    assert AllSupported(a) <==> forall r :: r in a ==> !ProviderAction(r).Unsupported?;
    assert AllSupported(b) <==> forall r :: r in b ==> !ProviderAction(r).Unsupported?;
  }

  lemma ReadingBothKeepsSameness(one: Snapshot, other: Snapshot, collates: (Row, Row) -> bool)
    ensures SameRows(Read(one, collates), Read(other, collates)) <==> SameRows(one, other)
  {
    hide Read;
    ReadingKeepsRows(one, collates);
    ReadingKeepsRows(other, collates);
    var x, y := Read(one, collates), Read(other, collates);
    forall table ensures multiset(x(table)) == multiset(one(table)) && multiset(y(table)) == multiset(other(table)) {
    }
  }

  lemma ReadingTwiceIsReadingOnce(one: Snapshot, other: Snapshot, collates: (Row, Row) -> bool)
    requires Orders(collates)
    ensures SnapshotsEqual(Read(one, collates), Read(other, collates), collates) <==>
            SnapshotsEqual(one, other, collates)
  {
    hide Orders;
    forall table
      ensures Read(Read(one, collates), collates)(table) == Read(one, collates)(table)
      ensures Read(Read(other, collates), collates)(table) == Read(other, collates)(table)
    {
      SortSorts(one(table), collates);
      SortSorts(other(table), collates);
      SortedStays(Sort(one(table), collates), collates);
      SortedStays(Sort(other(table), collates), collates);
    }
  }

  // Reads everything again and compares it with what was predicted.
  method ReobserveRun(w: World, initial: seq<Resource>) returns (ok: bool)
    requires Orders(w.collates)
    requires Opens(w) && initial == Sort(w.opening.value.seen.resources, Earlier)
    ensures ok <==> Closes(w)
  {
    hide SameRows, Projected, AllSupported, Orders, SnapshotsEqual, Read;
    if w.closing.None? { return false; }
    var opening, seen := w.opening.value, w.closing.value;
    var baseline, before := Read(opening.baseline, w.collates), Read(opening.seen.snapshot, w.collates);
    if !ValidInventory(seen.resources, w.owner) { return false; }
    var after := Sort(seen.resources, Earlier);
    if !ValidRows(seen.rows, w.owner) { return false; }
    var current := Read(seen.snapshot, w.collates);
    var verified := VerifyDatabaseOwnershipProjection(baseline, current, seen.rows);
    NothingOwnedIsBaseline(baseline, current);
    ReadingBothKeepsSameness(opening.baseline, seen.snapshot, w.collates);
    if !verified { return false; }
    PredictionCompares(seen.resources, opening.seen.resources);
    if Sort(Facts(after), SmallerId) != Sort(ExpectedFacts(initial), SmallerId) { return false; }
    InventoriesCompare(opening.seen.rows, seen.rows, w.owner);
    assert |multiset(seen.rows)| == |seen.rows|;
    if !SameInventory(opening.seen.rows, seen.rows) { return false; }
    ReadingTwiceIsReadingOnce(opening.seen.snapshot, seen.snapshot, w.collates);
    ok := SnapshotsEqual(before, current, w.collates);
  }

  lemma {:induction false} FactsOfSame(a: seq<Resource>, b: seq<Resource>)
    requires multiset(a) == multiset(b)
    ensures multiset(Facts(a)) == multiset(Facts(b)) && multiset(ExpectedFacts(a)) == multiset(ExpectedFacts(b))
    decreases |a|
  {
    assert |a| == |multiset(a)| == |multiset(b)| == |b|;
    if a == [] {
    } else {
      assert a[0] in multiset(b);
      var i :| 0 <= i < |b| && b[i] == a[0];
      var rest := b[..i] + b[i + 1..];
      FactsWithout(b, i);
      FactsWithout(a, 0);
      assert a[..0] + a[0 + 1..] == a[1..];
      SameRest(multiset(a[1..]), multiset(rest), a[0]);
      FactsOfSame(a[1..], rest);
    }
  }

  lemma FactsWithout(b: seq<Resource>, i: nat)
    requires i < |b|
    ensures multiset(b) == multiset(b[..i] + b[i + 1..]) + multiset{b[i]}
    ensures multiset(Facts(b)) == multiset(Facts(b[..i] + b[i + 1..])) + multiset{FactOf(b[i])}
    ensures multiset(ExpectedFacts(b)) == multiset(ExpectedFacts(b[..i] + b[i + 1..])) + multiset{ExpectedFact(b[i])}
  {
    hide FactOf, ExpectedFact;
    var left, right := b[..i], b[i + 1..];
    assert b == left + [b[i]] + right;
    assert Facts(b) == Facts(left) + [FactOf(b[i])] + Facts(right);
    assert Facts(left + right) == Facts(left) + Facts(right);
    assert ExpectedFacts(b) == ExpectedFacts(left) + [ExpectedFact(b[i])] + ExpectedFacts(right);
    assert ExpectedFacts(left + right) == ExpectedFacts(left) + ExpectedFacts(right);
  }

  lemma PredictionCompares(seen: seq<Resource>, initial: seq<Resource>)
    requires forall i, j :: 0 <= i < j < |seen| ==> seen[i].id != seen[j].id
    requires forall i, j :: 0 <= i < j < |initial| ==> initial[i].id != initial[j].id
    ensures Sort(Facts(Sort(seen, Earlier)), SmallerId) == Sort(ExpectedFacts(Sort(initial, Earlier)), SmallerId) <==>
            multiset(Facts(seen)) == multiset(ExpectedFacts(initial))
  {
    SortKeepsElements(seen, Earlier);
    SortKeepsElements(initial, Earlier);
    FactsOfSame(seen, Sort(seen, Earlier));
    FactsOfSame(initial, Sort(initial, Earlier));
    SameFactsSortAlike(Facts(seen), Facts(Sort(seen, Earlier)));
    SameFactsSortAlike(ExpectedFacts(initial), ExpectedFacts(Sort(initial, Earlier)));
    SortedFactsCompare(Facts(seen), ExpectedFacts(initial));
  }

  lemma TwoOccurrences(facts: seq<Fact>, i: nat, j: nat)
    requires i < j < |facts| && facts[i] == facts[j]
    ensures multiset(facts)[facts[i]] >= 2
  {
    assert facts == facts[..j] + [facts[j]] + facts[j + 1..];
    assert facts[i] == facts[..j][i];
    assert facts[i] in multiset(facts[..j]);
  }

  lemma {:induction false} OneOccurrence(facts: seq<Fact>, f: Fact)
    requires DistinctFacts(facts)
    ensures multiset(facts)[f] <= 1
    decreases |facts|
  {
    if facts == [] {
    } else {
      var rest := facts[..|facts| - 1];
      OneOccurrence(rest, f);
      assert facts == rest + [facts[|facts| - 1]];
      if facts[|facts| - 1] == f { assert f !in rest; }
    }
  }

  lemma SameFactsAreDistinct(a: seq<Fact>, b: seq<Fact>)
    requires DistinctFacts(a) && multiset(a) == multiset(b)
    ensures DistinctFacts(b)
  {
    forall i, j | 0 <= i < j < |b| ensures b[i].id != b[j].id {
      assert b[i] in multiset(a) && b[j] in multiset(a);
      var m :| 0 <= m < |a| && a[m] == b[i];
      var n :| 0 <= n < |a| && a[n] == b[j];
      if b[i] == b[j] {
        TwoOccurrences(b, i, j);
        OneOccurrence(a, b[i]);
        assert false;
      }
    }
  }

  lemma SameFactsSortAlike(a: seq<Fact>, b: seq<Fact>)
    requires DistinctFacts(a) && multiset(a) == multiset(b)
    ensures Sort(a, SmallerId) == Sort(b, SmallerId)
  {
    SameFactsAreDistinct(a, b);
    SortedFactsCompare(a, b);
  }

  predicate IsProviderWork(e: Effect) {
    e.Mutate? || e.Reconcile?
  }

  lemma NoWork()
    ensures Work([]) == []
  {
  }

  // Changes one resource at a time, settling each before the next.
  method ActOnAll(w: World, toActOn: seq<Resource>) returns (ok: bool, ids: seq<Id>, log: seq<Effect>)
    requires forall i :: 0 <= i < |toActOn| ==> ProviderAction(toActOn[i]).Act?
    ensures log <= Work(toActOn) && forall e :: e in log ==> IsProviderWork(e)
    ensures forall i :: 0 <= i < |log| - 1 ==> Succeeds(w, log[i])
    ensures ok ==> log == Work(toActOn) && ids == Ids(toActOn) && forall e :: e in log ==> Succeeds(w, e)
    ensures !ok ==> log != [] && !Succeeds(w, log[|log| - 1])
  {
    hide ProviderAction, Work;
    assert Work([]) == [] by { NoWork(); }
    log, ids := [], [];
    for i := 0 to |toActOn|
      invariant log == Work(toActOn[..i]) && ids == Ids(toActOn[..i])
      invariant forall e :: e in log ==> Succeeds(w, e) && IsProviderWork(e)
    {
      var r := toActOn[i];
      WorkIsInOrder(toActOn, i);
      WorkIsInOrder(toActOn, i + 1);
      assert toActOn[..i + 1] == toActOn[..i] + [r];
      log := log + [Mutate(r.id, ProviderAction(r).action)];
      if !w.mutates(r.id) { return false, ids, log; }
      log := log + [Reconcile(r.id)];
      if !w.reconciles(r.id) { return false, ids, log; }
      ids := ids + [r.id];
    }
    assert toActOn[..|toActOn|] == toActOn;
    ok := true;
  }

  // Cleans up what the attempt owns. Nothing is changed before everything was seen to be in order, and the lease is
  // released only after the prediction came true.
  method CleanupOwnedResources(w: World) returns (submitted: Option<Projection>, log: seq<Effect>)
    requires Orders(w.collates)
    ensures log != [] ==> Opens(w)
    ensures Opens(w) ==> log <= FullWork(w)
    ensures forall i :: 0 <= i < |log| - 1 ==> Succeeds(w, log[i])
    ensures Release in log ==> Closes(w)
    ensures submitted.Some? <==> Opens(w) && Closes(w) && forall e :: e in FullWork(w) ==> Succeeds(w, e)
    ensures submitted.Some? ==> log == FullWork(w) && submitted.value == ProjectionOf(w.opening.value.seen.resources)
    ensures Opens(w) && Closes(w) && (forall e :: e in FullWork(w) && e != Release ==> Succeeds(w, e)) ==>
              log == FullWork(w)
  {
    hide Closes, SameRows, ValidInventory, AllSupported, Work, Orders, ProjectionAccepted;
    var initial := OpenRun(w);
    if initial.None? { return None, []; }
    var retained := Sort(SummarizedRetained(initial.value), SmallerRetained);
    var toActOn := Acting(initial.value);
    var acted, ids, effects := ActOnAll(w, toActOn);
    log := effects;
    assert forall e :: e in log ==> e in FullWork(w);
    if !acted { assert log[|log| - 1] in log; return None, log; }
    assert FullWork(w)[|effects|] == CleanFixtures && FullWork(w)[|effects| + 1] == Release;
    assert CleanFixtures in FullWork(w) && Release in FullWork(w);
    log := log + [CleanFixtures];
    if !w.cleansFixtures { return None, log; }
    var predicted := ReobserveRun(w, initial.value);
    if !predicted { return None, log; }
    log := log + [Release];
    var projection := Projection(ids, retained);
    if !ProjectionAccepted(projection, w.owner.kindOf) || !w.releases { return None, log; }
    submitted := Some(projection);
  }

  // ---------- What a completed run has established ----------

  lemma {:induction false} ActingAct(resources: seq<Resource>)
    ensures forall r :: r in Acting(resources) <==> r in resources && ProviderAction(r).Act?
    decreases |resources|
  {
    if resources == [] {
    } else {
      var rest := resources[..|resources| - 1];
      ActingAct(rest);
      assert resources == rest + [resources[|resources| - 1]];
    }
  }

  predicate LatestFirst(acting: seq<Resource>) {
    forall i, j :: 0 <= i < j < |acting| ==> Earlier(acting[j], acting[i])
  }

  lemma {:induction false} ActingReverses(resources: seq<Resource>)
    requires StrictlySorted(resources, Earlier)
    ensures LatestFirst(Acting(resources))
    decreases |resources|
  {
    if resources == [] {
    } else {
      var rest, last := resources[..|resources| - 1], resources[|resources| - 1];
      ActingReverses(rest);
      ActingAct(rest);
      forall i | 0 <= i < |Acting(rest)| ensures Earlier(Acting(rest)[i], last) {
        assert Acting(rest)[i] in rest;
      }
    }
  }

  lemma DistinctSortEarlier(resources: seq<Resource>)
    requires forall i, j :: 0 <= i < j < |resources| ==> resources[i].id != resources[j].id
    ensures StrictlySorted(Sort(resources, Earlier), Earlier)
    decreases |resources|
  {
    if resources != [] {
      var rest, last := resources[..|resources| - 1], resources[|resources| - 1];
      DistinctSortEarlier(rest);
      SortKeepsElements(rest, Earlier);
      forall i | 0 <= i < |rest| ensures Sort(rest, Earlier)[i].id != last.id {
        assert Sort(rest, Earlier)[i] in rest;
      }
      InsertStrictlyBefore(last, Sort(rest, Earlier), Earlier);
    }
  }

  // Exactly the resources with an action are acted on, each once, in descending order of sequence and identifier.
  lemma EachIsActedOnOnceLatestFirst(resources: seq<Resource>)
    requires forall i, j :: 0 <= i < j < |resources| ==> resources[i].id != resources[j].id
    ensures forall r :: r in ToActOn(resources) <==> r in resources && ProviderAction(r).Act?
    ensures LatestFirst(ToActOn(resources))
  {
    ActingAct(Sort(resources, Earlier));
    SortKeepsElements(resources, Earlier);
    DistinctSortEarlier(resources);
    ActingReverses(Sort(resources, Earlier));
  }

  // Where the order tells all different rows apart, the last comparison of snapshots refuses no run that came so far.
  lemma LastComparisonNeverRefuses(w: World)
    requires Orders(w.collates) && NoTies(w.collates) && Opens(w) && Reobserves(w)
    ensures Closes(w)
  {
    hide Orders;
    var before, after := w.opening.value.seen.snapshot, w.closing.value.snapshot;
    forall table ensures multiset(before(table)) == multiset(after(table)) {
      assert multiset(w.opening.value.baseline(table)) == multiset(after(table));
    }
    SameRowsAreEqual(before, after, w.collates);
  }

  // The store cleans a run up exactly when it would, and the run owns no more resources than a projection may list.
  lemma ReleaseNeedsRoom(w: World)
    requires Opens(w)
    ensures Succeeds(w, Release) <==> w.releases && |w.opening.value.seen.resources| <= 100
    ensures |w.owner.resourceIds| <= 100 ==> |w.opening.value.seen.resources| <= 100
  {
    hide ProjectionAccepted, AllSupported, ValidResource;
    var resources := w.opening.value.seen.resources;
    ProjectionFitsUpToItsLimit(resources, w.owner);
    OwnedAreListed(resources, w.owner);
  }

  lemma {:induction false} OwnedAreListed(resources: seq<Resource>, owner: Owner)
    requires ValidInventory(resources, owner)
    ensures |resources| <= |owner.resourceIds|
  {
    var ids := set id | id in Ids(resources);
    forall id | id in ids ensures id in owner.resourceIds {
      var i :| 0 <= i < |resources| && Ids(resources)[i] == id;
      assert ValidResource(resources[i], owner);
    }
    CountOfDistinct(Ids(resources));
    SubsetIsNoLarger(ids, owner.resourceIds);
  }

  lemma {:induction false} CountOfDistinct(ids: seq<Id>)
    requires Distinct(ids)
    ensures |set id | id in ids| == |ids|
    decreases |ids|
  {
    if ids == [] {
    } else {
      var rest, last := ids[..|ids| - 1], ids[|ids| - 1];
      CountOfDistinct(rest);
      assert ids == rest + [last];
      assert (set id | id in ids) == (set id | id in rest) + {last};
      assert last !in rest;
    }
  }

  lemma {:induction false} SubsetIsNoLarger(a: set<Id>, b: set<Id>)
    requires a <= b
    ensures |a| <= |b|
  {
    assert b == a + (b - a);
  }

  // ---------- A run over the limit ----------

  // One more checkout session than a projection may list.
  function Sessions(t: Token, status: Status): (sessions: seq<Resource>)
    ensures |sessions| == MAX_PROJECTED + 1
    ensures forall i :: 0 <= i < |sessions| ==> sessions[i] == Resource(i, CheckoutSession, status, t, t, false, 0)
  {
    seq(MAX_PROJECTED + 1, i => Resource(i, CheckoutSession, status, t, t, false, 0))
  }

  // An attempt that owns so many open sessions, and whose every call succeeds.
  function OverLimit(t: Token): World {
    var ids := set r | r in Sessions(t, Open) :: r.id;
    World(Owner(t, t, ids, _ => CheckoutSession), (x: Row, y: Row) => x.id < y.id,
          Some(Opening(0, OneTable([]), Observation(Sessions(t, Open), [], OneTable([])))),
          true, _ => true, _ => true, true,
          Some(Observation(Sessions(t, Expired), [], OneTable([]))), true)
  }

  lemma SessionsAreOwned(t: Token, status: Status)
    ensures ValidInventory(Sessions(t, status), OverLimit(t).owner)
  {
    var sessions, owner := Sessions(t, status), OverLimit(t).owner;
    forall i | 0 <= i < |sessions| ensures ValidResource(sessions[i], owner) {
      assert Sessions(t, Open)[i] in Sessions(t, Open);
    }
  }

  lemma OverLimitOpens(t: Token)
    ensures Opens(OverLimit(t)) && Reobserves(OverLimit(t))
  {
    hide ValidInventory, Sessions, Acting;
    SessionsAreOwned(t, Open);
    SessionsAreOwned(t, Expired);
    assert Facts(Sessions(t, Expired)) == ExpectedFacts(Sessions(t, Open));
  }

  // Such a run does all its work, and what it submits is refused.
  lemma RunOverTheLimit(t: Token)
    ensures var w := OverLimit(t);
            Orders(w.collates) && Opens(w) && Closes(w) && |w.opening.value.seen.resources| == 101 &&
            (forall e :: e in FullWork(w) && e != Release ==> Succeeds(w, e)) && !Succeeds(w, Release)
  {
    hide ProjectionAccepted, Acting, Work, Opens, Reobserves, Sort;
    OverLimitOpens(t);
    ReleaseNeedsRoom(OverLimit(t));
  }

  // At its end no resource is left that would still have to be acted on.
  lemma NothingIsLeftToActOn(w: World, r: Resource)
    requires Opens(w) && Closes(w) && r in w.closing.value.resources
    ensures ProviderAction(r).Keep?
  {
    var seen, initial := w.closing.value.resources, w.opening.value.seen.resources;
    var i :| 0 <= i < |seen| && seen[i] == r;
    assert Facts(seen)[i] in multiset(Facts(seen));
    assert FactOf(r) in multiset(ExpectedFacts(initial));
    var j :| 0 <= j < |initial| && ExpectedFacts(initial)[j] == FactOf(r);
    assert !ProviderAction(initial[j]).Unsupported?;
  }
}
