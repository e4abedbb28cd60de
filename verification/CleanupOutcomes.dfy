// What a billing cleanup run does to each resource, said of the resource's kind and status alone.
module CleanupOutcomes {
  import opened Sorting
  import opened BillingCleanup

  predicate OpenSession(r: Resource) {
    r.kind == CheckoutSession && r.status == Open
  }

  predicate LiveSubscription(r: Resource) {
    r.kind == Subscription && r.status in {Active, Trialing, PastDue, Unpaid, Incomplete, Paused}
  }

  // Sessions and subscriptions have a limited number of states that a run knows; whatever else there is, is kept as
  // it is.
  predicate Known(r: Resource) {
    (r.kind == CheckoutSession ==> r.status in {Open, Expired, Complete}) &&
    (r.kind == Subscription ==> LiveSubscription(r) || r.status in {Canceled, IncompleteExpired})
  }

  predicate Suits(r: Resource, action: Action) {
    (action == ExpireSession && OpenSession(r)) || (action == CancelSubscription && LiveSubscription(r))
  }

  // A test-mode resource of the attempt's own, in its account and on its list.
  predicate OwnedBy(r: Resource, owner: Owner) {
    r.ownerAttemptId == owner.attemptId && r.accountId == owner.accountId && !r.livemode && r.id in owner.resourceIds &&
    owner.kindOf(r.id) == r.kind
  }

  lemma PlansAreKnown(r: Resource)
    ensures ProviderAction(r).Act? <==> OpenSession(r) || LiveSubscription(r)
    ensures ProviderAction(r).Unsupported? <==> !Known(r)
    ensures ProviderAction(r).Act? ==> Suits(r, ProviderAction(r).action)
    ensures ProviderAction(r).Act? ==>
              ProviderAction(r).after == if r.kind == CheckoutSession then Expired else Canceled
  {
  }

  ghost predicate Distinguished(resources: seq<Resource>) {
    forall i, j :: 0 <= i < j < |resources| ==> resources[i].id != resources[j].id
  }

  lemma SameIdSameResource(resources: seq<Resource>, r: Resource, s: Resource)
    requires Distinguished(resources) && r in resources && s in resources && r.id == s.id
    ensures r == s
  {
    var i :| 0 <= i < |resources| && resources[i] == r;
    var j :| 0 <= j < |resources| && resources[j] == s;
  }

  lemma {:induction false} WorkMutates(acting: seq<Resource>, e: Effect)
    requires forall i :: 0 <= i < |acting| ==> ProviderAction(acting[i]).Act?
    ensures e in Work(acting) && e.Mutate? ==>
              exists r :: r in acting && r.id == e.id && ProviderAction(r).action == e.action
    ensures forall r :: r in acting ==> Mutate(r.id, ProviderAction(r).action) in Work(acting)
    decreases |acting|
  {
    hide ProviderAction;
    if acting == [] {
    } else {
      var rest, last := acting[..|acting| - 1], acting[|acting| - 1];
      WorkMutates(rest, e);
      assert acting == rest + [last];
      if e in Work(rest) && e.Mutate? {
        var r :| r in rest && r.id == e.id && ProviderAction(r).action == e.action;
        assert r in acting;
      }
    }
  }

  lemma OpenedResources(w: World)
    requires Opens(w)
    ensures w.opening.Some?
    ensures Distinguished(w.opening.value.seen.resources)
    ensures forall r :: r in w.opening.value.seen.resources ==> Known(r) && OwnedBy(r, w.owner)
  {
    hide SameRows, ProviderAction;
    forall r | r in w.opening.value.seen.resources ensures Known(r) && OwnedBy(r, w.owner) {
      var i :| 0 <= i < |w.opening.value.seen.resources| && w.opening.value.seen.resources[i] == r;
      assert ValidResource(w.opening.value.seen.resources[i], w.owner);
      PlansAreKnown(r);
    }
  }

  // A run that works through its log does to every resource exactly what its kind and status call for: open sessions
  // are expired, live subscriptions cancelled, and nothing else is touched.
  lemma WorkSuitsTheResources(w: World, r: Resource)
    requires Opens(w) && r in w.opening.value.seen.resources
    ensures Mutate(r.id, ExpireSession) in FullWork(w) <==> OpenSession(r)
    ensures Mutate(r.id, CancelSubscription) in FullWork(w) <==> LiveSubscription(r)
  {
    hide ProviderAction, Opens, Work;
    OpenedResources(w);
    var resources := w.opening.value.seen.resources;
    EachIsActedOnOnceLatestFirst(resources);
    PlansAreKnown(r);
    forall action | Mutate(r.id, action) in FullWork(w) ensures Suits(r, action) {
      WorkMutates(ToActOn(resources), Mutate(r.id, action));
      var s :| s in ToActOn(resources) && s.id == r.id && ProviderAction(s).action == action;
      SameIdSameResource(resources, r, s);
    }
    if ProviderAction(r).Act? {
      WorkMutates(ToActOn(resources), Mutate(r.id, ProviderAction(r).action));
      assert Mutate(r.id, ProviderAction(r).action) in FullWork(w);
    }
  }

  // What `CleanupOwnedResources` promises of a log that is not empty.
  ghost predicate Logged(w: World, log: seq<Effect>) {
    Opens(w) && log <= FullWork(w) && (forall i :: 0 <= i < |log| - 1 ==> Succeeds(w, log[i])) &&
    (Release in log ==> Closes(w))
  }

  // Nothing is changed but what is the attempt's own, in test mode, and in a state that calls for just that change.
  lemma EveryMutationSuitsItsResource(w: World, log: seq<Effect>, id: Id, action: Action)
    requires Logged(w, log) && Mutate(id, action) in log
    ensures exists r :: r in w.opening.value.seen.resources && r.id == id && Suits(r, action) && OwnedBy(r, w.owner)
  {
    hide ProviderAction, Opens, Work, Closes, Suits, OwnedBy;
    OpenedResources(w);
    var resources := w.opening.value.seen.resources;
    EachIsActedOnOnceLatestFirst(resources);
    assert Mutate(id, action) in FullWork(w);
    WorkMutates(ToActOn(resources), Mutate(id, action));
    var r :| r in ToActOn(resources) && r.id == id && ProviderAction(r).action == action;
    PlansAreKnown(r);
  }

  // A change is followed by the reconciliation of the same resource before anything else is done.
  lemma MutationIsReconciledNext(w: World, log: seq<Effect>, i: nat)
    requires Logged(w, log) && i < |log| && log[i].Mutate?
    ensures i + 1 < |log| ==> log[i + 1] == Reconcile(log[i].id) && w.mutates(log[i].id)
    ensures i + 2 < |log| ==> w.reconciles(log[i].id)
  {
    hide Opens, Closes, Work, ToActOn;
    OpenedResources(w);
    var acting := ToActOn(w.opening.value.seen.resources);
    PairsAlternate(acting, i);
    assert log[i] == FullWork(w)[i];
  }

  lemma {:induction false} PairsAlternate(acting: seq<Resource>, i: nat)
    requires forall k :: 0 <= k < |acting| ==> ProviderAction(acting[k]).Act?
    requires i < |Work(acting)| + 2 && (Work(acting) + [CleanFixtures, Release])[i].Mutate?
    ensures i + 1 < |Work(acting)| && Work(acting)[i + 1] == Reconcile(Work(acting)[i].id)
    decreases |acting|
  {
    hide ProviderAction;
    if acting == [] {
    } else {
      var rest := acting[..|acting| - 1];
      if i < |Work(rest)| {
        assert (Work(rest) + [CleanFixtures, Release])[i] == Work(acting)[i];
        PairsAlternate(rest, i);
      }
    }
  }

  lemma {:induction false} WorkIsProviderWork(acting: seq<Resource>)
    requires forall i :: 0 <= i < |acting| ==> ProviderAction(acting[i]).Act?
    ensures forall i :: 0 <= i < |Work(acting)| ==> Work(acting)[i].Mutate? || Work(acting)[i].Reconcile?
    decreases |acting|
  {
    hide ProviderAction;
    if acting != [] { WorkIsProviderWork(acting[..|acting| - 1]); }
  }

  // Made later, or at the same time with the greater identifier.
  predicate Later(r: Resource, s: Resource) {
    r.sequence > s.sequence || (r.sequence == s.sequence && r.id > s.id)
  }

  lemma LaterIs(r: Resource, s: Resource)
    ensures Later(r, s) <==> Earlier(s, r)
  {
  }

  lemma {:induction false} MutatesAreInOrder(acting: seq<Resource>, i: nat, j: nat)
    requires (forall k :: 0 <= k < |acting| ==> ProviderAction(acting[k]).Act?) && LatestFirst(acting)
    requires i < j < |Work(acting)| && Work(acting)[i].Mutate? && Work(acting)[j].Mutate?
    ensures exists r, s :: r in acting && s in acting && r.id == Work(acting)[i].id && s.id == Work(acting)[j].id &&
                           Later(r, s)
    decreases |acting|
  {
    hide ProviderAction, Later;
    var rest, last := acting[..|acting| - 1], acting[|acting| - 1];
    assert LatestFirst(rest);
    if j < |Work(rest)| {
      MutatesAreInOrder(rest, i, j);
      var r, s :| r in rest && s in rest && r.id == Work(rest)[i].id && s.id == Work(rest)[j].id && Later(r, s);
      assert r in acting && s in acting;
    } else {
      WorkMutates(rest, Work(rest)[i]);
      var r :| r in rest && r.id == Work(rest)[i].id && ProviderAction(r).action == Work(rest)[i].action;
      var k :| 0 <= k < |rest| && rest[k] == r;
      assert acting[k] == r && Earlier(last, r);
      LaterIs(r, last);
    }
  }

  // What was made last is undone first.
  lemma LatestIsUndoneFirst(w: World, log: seq<Effect>, i: nat, j: nat)
    requires Logged(w, log) && i < j < |log| && log[i].Mutate? && log[j].Mutate?
    ensures exists r, s :: r in w.opening.value.seen.resources && s in w.opening.value.seen.resources &&
                           r.id == log[i].id && s.id == log[j].id && Later(r, s)
  {
    hide ProviderAction, Opens, Work, Closes, OwnedBy, Known, Later, LatestFirst;
    OpenedResources(w);
    var resources := w.opening.value.seen.resources;
    EachIsActedOnOnceLatestFirst(resources);
    var acting := ToActOn(resources);
    assert log[i] == FullWork(w)[i] && log[j] == FullWork(w)[j];
    assert log[i] == Work(acting)[i] && log[j] == Work(acting)[j];
    MutatesAreInOrder(acting, i, j);
    var r, s :| r in acting && s in acting && r.id == Work(acting)[i].id && s.id == Work(acting)[j].id && Later(r, s);
    assert r in resources && s in resources;
  }

  // The release comes last: after the fixtures were cleaned and what is left was seen to be as predicted.
  lemma ReleaseComesLast(w: World, log: seq<Effect>)
    requires Logged(w, log) && Release in log
    ensures log == FullWork(w) && log[|log| - 2] == CleanFixtures && log[|log| - 1] == Release && w.cleansFixtures
    ensures Closes(w)
  {
    hide Opens, Closes, Work, ToActOn;
    OpenedResources(w);
    var acting := ToActOn(w.opening.value.seen.resources);
    WorkIsProviderWork(acting);
    var i :| 0 <= i < |log| && log[i] == Release;
    assert log[i] == FullWork(w)[i];
    assert i >= |Work(acting)| && FullWork(w)[|Work(acting)|] == CleanFixtures;
    assert i == |FullWork(w)| - 1;
    assert Succeeds(w, log[i - 1]);
  }

  // ---------- What is left ----------

  // The status a resource ends with.
  function FinalStatus(r: Resource): Status {
    if OpenSession(r) then Expired else if LiveSubscription(r) then Canceled else r.status
  }

  lemma FactsAreExpected(r: Resource)
    ensures ExpectedFact(r) == Fact(r.id, r.kind, FinalStatus(r))
  {
  }

  // A run that came to its end left behind the same resources, each in the status it should end with, and nothing more:
  // no row that is owned, and the tables as at the baseline.
  lemma EveryResourceEndsAsItShould(w: World)
    requires Opens(w) && Closes(w)
    ensures var before, after := w.opening.value.seen.resources, w.closing.value.resources;
            |after| == |before| && w.closing.value.rows == [] &&
            (forall table ::
               multiset(w.opening.value.baseline(table)) == multiset(w.closing.value.snapshot(table))) &&
            (forall r :: r in before ==>
               exists s :: s in after && s.id == r.id && s.kind == r.kind && s.status == FinalStatus(r)) &&
            forall s :: s in after ==>
              exists r :: r in before && s.id == r.id && s.kind == r.kind && s.status == FinalStatus(r)
  {
    hide Opens, SnapshotsEqual, ValidInventory, FinalStatus, ExpectedFact, FactOf;
    OpenedResources(w);
    var before, after := w.opening.value.seen.resources, w.closing.value.resources;
    assert |multiset(Facts(after))| == |multiset(ExpectedFacts(before))|;
    forall r | r in before
      ensures exists s :: s in after && s.id == r.id && s.kind == r.kind && s.status == FinalStatus(r)
    {
      var i :| 0 <= i < |before| && before[i] == r;
      assert ExpectedFacts(before)[i] in multiset(Facts(after));
      var j :| 0 <= j < |after| && Facts(after)[j] == ExpectedFact(r);
      FactsAreExpected(r);
      FactShows(after[j]);
      assert after[j] in after;
    }
    forall s | s in after
      ensures exists r :: r in before && s.id == r.id && s.kind == r.kind && s.status == FinalStatus(r)
    {
      var i :| 0 <= i < |after| && after[i] == s;
      assert Facts(after)[i] in multiset(ExpectedFacts(before));
      var j :| 0 <= j < |before| && ExpectedFacts(before)[j] == FactOf(s);
      FactsAreExpected(before[j]);
      FactShows(s);
      assert before[j] in before;
    }
  }

  lemma FactShows(r: Resource)
    ensures FactOf(r) == Fact(r.id, r.kind, r.status)
  {
  }

  // How a resource is reported, by what it was when the run began.
  predicate ReportedAs(r: Resource, retention: Retention) {
    (retention == RetainedCustomer <==> r.kind == Customer) &&
    (retention == ExpiredSession <==> r.kind == CheckoutSession && (r.status == Open || r.status == Expired)) &&
    (retention == CompletedSession <==> r.kind == CheckoutSession && r.status == Complete) &&
    (retention == RetainedSubscription <==> LiveSubscription(r)) &&
    (retention == CanceledSubscription <==>
     r.kind == Subscription && (r.status == Canceled || r.status == IncompleteExpired)) &&
    (retention == FinancialObject <==> r.kind !in {Customer, CheckoutSession, Subscription})
  }

  lemma RetentionReports(r: Resource)
    requires Known(r)
    ensures RetentionOf(r).Some? && ReportedAs(r, RetentionOf(r).value)
  {
  }

  // The resources in the order in which they are worked through, all of them supported.
  lemma SortedForWork(w: World)
    requires Opens(w)
    ensures var resources := w.opening.value.seen.resources;
            var initial := Sort(resources, Earlier);
            |initial| == |resources| && (forall r :: r in initial <==> r in resources) && AllSupported(initial)
  {
    hide Opens, SameRows, Known, OwnedBy, ProviderAction, Orders;
    OpenedResources(w);
    var resources := w.opening.value.seen.resources;
    var initial := Sort(resources, Earlier);
    SortKeepsElements(resources, Earlier);
    assert |initial| == |multiset(initial)| == |resources|;
    forall i | 0 <= i < |initial| ensures !ProviderAction(initial[i]).Unsupported? {
      assert initial[i] in resources;
      PlansAreKnown(initial[i]);
    }
  }

  // What is submitted names every resource once, with how it is reported.
  lemma SubmissionReportsEveryResource(w: World)
    requires Opens(w)
    ensures var resources := w.opening.value.seen.resources;
            var retained := ProjectionOf(resources).retained;
            |retained| == |resources| &&
            forall r :: r in resources ==>
              exists o :: o in retained && o.id == r.id && o.kind == r.kind && ReportedAs(r, o.retention)
  {
    hide Opens, SameRows, ReportedAs, Known, OwnedBy, ProviderAction, RetentionOf, Orders, AllSupported, Sort, Acting,
         SummarizedRetained;
    OpenedResources(w);
    SortedForWork(w);
    var resources := w.opening.value.seen.resources;
    var initial := Sort(resources, Earlier);
    SummaryIsComplete(initial);
    var summary := SummarizedRetained(initial);
    SortKeepsElements(summary, SmallerRetained);
    assert |Sort(summary, SmallerRetained)| == |multiset(Sort(summary, SmallerRetained))| == |summary|;
    forall r | r in resources
      ensures exists o :: o in Sort(summary, SmallerRetained) && o.id == r.id && o.kind == r.kind &&
                          ReportedAs(r, o.retention)
    {
      var i :| 0 <= i < |initial| && initial[i] == r;
      RetentionReports(r);
      assert summary[i] in Sort(summary, SmallerRetained);
    }
  }

  // And as mutated exactly those that were acted on.
  lemma SubmissionNamesTheMutated(w: World, r: Resource)
    requires Opens(w) && r in w.opening.value.seen.resources
    ensures r.id in ProjectionOf(w.opening.value.seen.resources).mutated <==> OpenSession(r) || LiveSubscription(r)
  {
    hide Opens, SameRows, Known, OwnedBy, ProviderAction, Orders, AllSupported, Sort, Acting;
    OpenedResources(w);
    SortedForWork(w);
    var resources := w.opening.value.seen.resources;
    var acting := Acting(Sort(resources, Earlier));
    ActingAct(Sort(resources, Earlier));
    PlansAreKnown(r);
    if r.id in Ids(acting) {
      var i :| 0 <= i < |acting| && Ids(acting)[i] == r.id;
      assert acting[i] in acting;
      SameIdSameResource(resources, r, acting[i]);
    }
    if r in acting {
      var i :| 0 <= i < |acting| && acting[i] == r;
      assert Ids(acting)[i] == r.id;
    }
  }

  // ---------- What keeps a run from starting ----------

  // Nothing is touched while an intent is pending, while rows are owned, while the tables are not as at the baseline,
  // or while a resource is unknown or not the attempt's own.
  lemma NothingIsTouchedUnlessInOrder(w: World, log: seq<Effect>, table: Table)
    requires log != [] ==> Logged(w, log)
    ensures log != [] ==>
              w.opening.Some? && w.opening.value.pendingIntents == 0 && w.opening.value.seen.rows == [] &&
              multiset(w.opening.value.baseline(table)) == multiset(w.opening.value.seen.snapshot(table)) &&
              forall r :: r in w.opening.value.seen.resources ==>
                Known(r) && OwnedBy(r, w.owner) && (OpenSession(r) || LiveSubscription(r) ==> w.canObserveIntents)
  {
    if log != [] {
      OpenedResources(w);
      hide Known, OwnedBy, ValidInventory, AllSupported, OpenSession, LiveSubscription, ProviderAction;
      EachIsActedOnOnceLatestFirst(w.opening.value.seen.resources);
      forall r | r in w.opening.value.seen.resources && (OpenSession(r) || LiveSubscription(r))
        ensures w.canObserveIntents
      {
        PlansAreKnown(r);
        assert r in ToActOn(w.opening.value.seen.resources);
      }
    }
  }

  // ---------- Which rows may be left in a table ----------

  // The table in which a row of each kind is found; both kinds of usage share one, and users appear in none.
  predicate KeptIn(kind: RowKind, table: Table) {
    (table == Attempts && kind == CheckoutAttempt) || (table == Contexts && kind == PaymentContext) ||
    (table == Contracts && kind == Contract) || (table == Settlements && kind == SettlementEffect) ||
    (table == Grants && kind == AreaGrant) || (table == Revisions && kind == ContractRevision) ||
    (table == UsageRows && (kind == UsagePeriod || kind == UsageEvent))
  }

  lemma {:induction false} IdsAreOfKeptRows(owned: seq<OwnedRow>, table: Table, id: Id)
    ensures id in IdsIn(owned, table) <==> exists o :: o in owned && o.id == id && KeptIn(o.kind, table)
    decreases |owned|
  {
    if owned != [] {
      var rest, last := owned[..|owned| - 1], owned[|owned| - 1];
      IdsAreOfKeptRows(rest, table, id);
      assert owned == rest + [last];
      if id in IdsIn(rest, table) {
        var o :| o in rest && o.id == id && KeptIn(o.kind, table);
        assert o in owned;
      } else if last.id == id && KeptIn(last.kind, table) {
        assert last in owned;
      }
    }
  }

  // A row that occurs more often than at the baseline.
  ghost predicate Left(row: Row, baseline: seq<Row>, current: seq<Row>) {
    multiset(current)[row] > multiset(baseline)[row]
  }

  // The ownership test passes only if every owned row is found in its own table, and every row that a table has beyond
  // its baseline is owned there.
  lemma OwnedRowsAreInTheirTables(baseline: Snapshot, current: Snapshot, owned: seq<OwnedRow>, table: Table)
    requires Projected(baseline, current, owned)
    ensures multiset(baseline(table)) <= multiset(current(table))
    ensures forall o :: o in owned && KeptIn(o.kind, table) ==>
              exists row :: Left(row, baseline(table), current(table)) && row.id == o.id
    ensures forall row :: Left(row, baseline(table), current(table)) ==>
              exists o :: o in owned && o.id == row.id && KeptIn(o.kind, table)
  {
    var extras :| Extra(extras, baseline(table), current(table)) &&
      multiset(Keys(extras)) == multiset(IdsIn(owned, table));
    hide KeptIn, TableOf, IdsIn;
    forall o | o in owned && KeptIn(o.kind, table)
      ensures exists row :: Left(row, baseline(table), current(table)) && row.id == o.id
    {
      IdsAreOfKeptRows(owned, table, o.id);
      assert o.id in multiset(Keys(extras));
      var i :| 0 <= i < |extras| && Keys(extras)[i] == o.id;
      assert extras[i] in multiset(extras);
      assert Left(extras[i], baseline(table), current(table));
    }
    forall row | Left(row, baseline(table), current(table))
      ensures exists o :: o in owned && o.id == row.id && KeptIn(o.kind, table)
    {
      assert row in multiset(extras);
      var i :| 0 <= i < |extras| && extras[i] == row;
      assert Keys(extras)[i] in multiset(Keys(extras));
      assert row.id in multiset(IdsIn(owned, table));
      IdsAreOfKeptRows(owned, table, row.id);
    }
  }
}
