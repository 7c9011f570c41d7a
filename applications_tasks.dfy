/**
 * Background work: matching one customer against all lenders, and the periodic
 * sweep over every automatically matched customer with one bulk insert.
 */
module ApplicationTasks {
  import opened Basics
  import opened LenderModels
  import opened ApplicationModels
  import opened PartnerModels

  /** The single-customer task's argument: a customer object, or a number taken as its id. */
  datatype CustomerArg = Instance(customer: Customer) | Number(id: int)

  /** Completed, or the task raised and its work was dropped. */
  datatype TaskOutcome = Completed | Failed

  /** The queue of deferred single-customer tasks, each given by its argument. */
  class TaskQueue {
    var pending: seq<int>

    constructor ()
      ensures pending == []
    {
      pending := [];
    }

    /** Schedules the single-customer task for a later run. */
    method Delay(customerId: int)
      modifies this
      ensures pending == old(pending) + [customerId]
    {
      pending := pending + [customerId];
    }
  }

  /** The customer the single-customer task works on, if any. */
  function ResolveCustomer(arg: CustomerArg, customers: seq<Customer>): (r: Option<Customer>)
    ensures arg.Instance? ==> r == Some(arg.customer)
    ensures arg.Number? ==> (r.None? <==> forall c :: c in customers ==> c.id != arg.id)
    ensures arg.Number? && r.Some? ==> r.value in customers && r.value.id == arg.id
  {
    match arg
    case Instance(c) => Some(c)
    case Number(n) => FindCustomer(customers, n)
  }

  /**
   * Matches one customer against every lender's offers and stores the result.
   * An unknown id raises: the handler for the failed lookup names an attribute
   * the customer class does not have, so the run ends in an error, with nothing stored.
   */
  method MatchCustomerTask(store: ApplicationStore, customers: seq<Customer>, offers: seq<Offer>,
                           now: Timestamp, arg: CustomerArg)
    returns (outcome: TaskOutcome)
    requires store.Valid() && OfferIdsUnique(offers)
    modifies store
    ensures store.Valid()
    ensures ResolveCustomer(arg, customers).None? ==> outcome == Failed && store.rows == old(store.rows)
    ensures ResolveCustomer(arg, customers).Some? ==>
      && outcome == Completed
      && store.rows == old(store.rows) + NewMatches(ResolveCustomer(arg, customers).value, offers, old(store.rows), None, now)
  {
    var resolved := ResolveCustomer(arg, customers);
    if resolved.None? {
      return Failed;
    }
    var c := resolved.value;
    var out := MatchWithOffers(c, offers, store.rows, None, now, false);
    NewMatchesFresh(c, offers, store.rows, None, now);
    var ok := store.BulkInsert(out.newApps);
    outcome := if ok then Completed else Failed;
  }

  /** The customers the sweep visits: those whose modes contain automatic matching, in table order. */
  function AutoCustomers(customers: seq<Customer>): (r: seq<Customer>)
    ensures forall c :: c in r <==> c in customers && Auto in c.modes
    ensures CustomerIdsUnique(customers) ==> CustomerIdsUnique(r)
  {
    if customers == [] then []
    else
      var rest := AutoCustomers(customers[1..]);
      assert customers == [customers[0]] + customers[1..];
      if Auto in customers[0].modes then
        assert CustomerIdsUnique(customers) ==> forall c :: c in rest ==> c.id != customers[0].id by {
          if CustomerIdsUnique(customers) {
            forall c | c in rest ensures c.id != customers[0].id {
              var k :| 0 <= k < |customers[1..]| && customers[1..][k] == c;
              assert customers[k + 1] == c;
            }
          }
        }
        [customers[0]] + rest
      else rest
  }

  /** The sweep's batch: each visited customer's new applications (all lenders), concatenated in visiting order. */
  function SweepBatch(visited: seq<Customer>, offers: seq<Offer>, rows: seq<Application>, now: Timestamp)
    : seq<Application>
  {
    if visited == [] then []
    else SweepBatch(visited[..|visited| - 1], offers, rows, now)
         + NewMatches(visited[|visited| - 1], offers, rows, None, now)
  }

  /**
   * The periodic sweep: matches every automatically matched customer against all
   * lenders, collecting the results, and stores them with one bulk insert at the end.
   */
  method MatchCustomersWithOffersTask(store: ApplicationStore, customers: seq<Customer>, offers: seq<Offer>,
                                      now: Timestamp)
    returns (outcome: TaskOutcome)
    requires store.Valid() && CustomerIdsUnique(customers) && OfferIdsUnique(offers)
    modifies store
    ensures store.Valid() && outcome == Completed
    ensures store.rows == old(store.rows) + SweepBatch(AutoCustomers(customers), offers, old(store.rows), now)
  {
    var rows := store.rows;
    var visited := AutoCustomers(customers);
    var newApps: seq<Application> := [];
    for i := 0 to |visited|
      invariant store.rows == rows
      invariant newApps == SweepBatch(visited[..i], offers, rows, now)
    {
      var out := MatchWithOffers(visited[i], offers, rows, None, now, false);
      assert visited[..i + 1][..i] == visited[..i];
      newApps := newApps + out.newApps;
    }
    assert visited[..|visited|] == visited;
    SweepBatchFresh(visited, offers, rows, now);
    var ok := store.BulkInsert(newApps);
    outcome := if ok then Completed else Failed;
  }

  // ---------------------------------------------------------------------------
  // What the sweep guarantees

  /** An application is in the batch exactly when it is a new match of some visited customer. */
  lemma {:induction false} SweepBatchMembership(visited: seq<Customer>, offers: seq<Offer>, rows: seq<Application>,
                                                now: Timestamp)
    ensures forall a :: a in SweepBatch(visited, offers, rows, now) <==>
      exists c :: c in visited && a in NewMatches(c, offers, rows, None, now)
  {
    if visited != [] {
      var init := visited[..|visited| - 1];
      var last := visited[|visited| - 1];
      SweepBatchMembership(init, offers, rows, now);
      assert visited == init + [last];
      forall a | a in SweepBatch(visited, offers, rows, now)
        ensures exists c :: c in visited && a in NewMatches(c, offers, rows, None, now)
      {
        if a in SweepBatch(init, offers, rows, now) {
          var c :| c in init && a in NewMatches(c, offers, rows, None, now);
          assert c in visited;
        } else {
          assert last in visited;
        }
      }
      forall a, c | c in visited && a in NewMatches(c, offers, rows, None, now)
        ensures a in SweepBatch(visited, offers, rows, now)
      {
        if c != last {
          assert c in init;
        }
      }
    }
  }

  /** Customer ids stay unique in a prefix. */
  lemma PrefixIdsUnique(visited: seq<Customer>, n: nat)
    requires CustomerIdsUnique(visited) && n <= |visited|
    ensures CustomerIdsUnique(visited[..n])
  {
    var p := visited[..n];
    forall i, j | 0 <= i < j < |p| ensures p[i].id != p[j].id {
      assert p[i] == visited[i] && p[j] == visited[j];
    }
  }

  /** A customer before the last one of an id-keyed sequence carries another id. */
  lemma EarlierCustomerOtherId(visited: seq<Customer>, c: Customer)
    requires CustomerIdsUnique(visited) && |visited| > 0 && c in visited[..|visited| - 1]
    ensures c.id != visited[|visited| - 1].id
  {
    var k :| 0 <= k < |visited| - 1 && visited[..|visited| - 1][k] == c;
    assert visited[k] == c;
  }

  /** No earlier customer's new application shares a pair with a later customer's. */
  lemma EarlierBatchDisjoint(visited: seq<Customer>, offers: seq<Offer>, rows: seq<Application>, now: Timestamp)
    requires CustomerIdsUnique(visited) && |visited| > 0
    ensures forall a, b ::
      (a in SweepBatch(visited[..|visited| - 1], offers, rows, now) &&
       b in NewMatches(visited[|visited| - 1], offers, rows, None, now)) ==> a.customer != b.customer
  {
    var init := visited[..|visited| - 1];
    var last := visited[|visited| - 1];
    SweepBatchMembership(init, offers, rows, now);
    NewMatchesSound(last, offers, rows, None, now);
    forall a, b | a in SweepBatch(init, offers, rows, now) && b in NewMatches(last, offers, rows, None, now)
      ensures a.customer != b.customer
    {
      var c :| c in init && a in NewMatches(c, offers, rows, None, now);
      NewMatchesSound(c, offers, rows, None, now);
      EarlierCustomerOtherId(visited, c);
    }
  }

  /** No stored pair reappears among a customer's new applications. */
  lemma StoredDisjointFromNewMatches(c: Customer, offers: seq<Offer>, rows: seq<Application>, now: Timestamp)
    ensures forall a, b :: a in rows && b in NewMatches(c, offers, rows, None, now) ==> Key(a) != Key(b)
  {
    NewMatchesSound(c, offers, rows, None, now);
  }

  /**
   * Appending a duplicate-free batch to a duplicate-free table keeps it so when the
   * batch shares no pair with the stored rows and no customer with the earlier additions.
   */
  lemma AppendFreshBatch(rows: seq<Application>, earlier: seq<Application>, news: seq<Application>)
    requires UniquePairs(rows + earlier) && UniquePairs(news)
    requires forall a, b :: a in rows && b in news ==> Key(a) != Key(b)
    requires forall a, b :: a in earlier && b in news ==> a.customer != b.customer
    ensures UniquePairs(rows + earlier + news)
  {
    forall a, b | a in rows + earlier && b in news
      ensures Key(a) != Key(b)
    {
      assert a in rows || a in earlier;
    }
    UniquePairsConcat(rows + earlier, news);
  }

  /** Storing the batch so far and then the last customer's matches is storing the whole batch. */
  lemma StoreSweepBatchInSteps(visited: seq<Customer>, offers: seq<Offer>, rows: seq<Application>, now: Timestamp)
    requires |visited| > 0
    ensures rows + SweepBatch(visited, offers, rows, now)
         == rows + SweepBatch(visited[..|visited| - 1], offers, rows, now)
            + NewMatches(visited[|visited| - 1], offers, rows, None, now)
  {
  }

  /** One step of the sweep keeps the table duplicate-free. */
  lemma SweepBatchFreshStep(visited: seq<Customer>, offers: seq<Offer>, rows: seq<Application>, now: Timestamp)
    requires |visited| > 0 && UniquePairs(rows) && OfferIdsUnique(offers) && CustomerIdsUnique(visited)
    requires UniquePairs(rows + SweepBatch(visited[..|visited| - 1], offers, rows, now))
    ensures UniquePairs(rows + SweepBatch(visited, offers, rows, now))
  {
    var n := |visited| - 1;
    NewMatchesUnique(visited[n], offers, rows, None, now);
    EarlierBatchDisjoint(visited, offers, rows, now);
    StoredDisjointFromNewMatches(visited[n], offers, rows, now);
    AppendFreshBatch(rows, SweepBatch(visited[..n], offers, rows, now), NewMatches(visited[n], offers, rows, None, now));
    StoreSweepBatchInSteps(visited, offers, rows, now);
  }

  /**
   * Over duplicate-free tables keyed by id, the sweep's batch never repeats a
   * pair: neither a stored one nor one of its own.
   */
  lemma {:induction false} SweepBatchFresh(visited: seq<Customer>, offers: seq<Offer>, rows: seq<Application>,
                                           now: Timestamp)
    requires UniquePairs(rows) && OfferIdsUnique(offers) && CustomerIdsUnique(visited)
    ensures UniquePairs(rows + SweepBatch(visited, offers, rows, now))
  {
    if visited == [] {
      assert rows + [] == rows;
    } else {
      PrefixIdsUnique(visited, |visited| - 1);
      SweepBatchFresh(visited[..|visited| - 1], offers, rows, now);
      SweepBatchFreshStep(visited, offers, rows, now);
    }
  }

  /** Every application the sweep stores belongs to a customer whose modes contain automatic matching. */
  lemma SweepOnlyAutoCustomers(customers: seq<Customer>, offers: seq<Offer>, rows: seq<Application>, now: Timestamp)
    ensures forall a :: a in SweepBatch(AutoCustomers(customers), offers, rows, now) ==>
      exists c :: c in customers && Auto in c.modes && a.customer == c.id
  {
    var visited := AutoCustomers(customers);
    SweepBatchMembership(visited, offers, rows, now);
    forall a | a in SweepBatch(visited, offers, rows, now)
      ensures exists c :: c in customers && Auto in c.modes && a.customer == c.id
    {
      var c :| c in visited && a in NewMatches(c, offers, rows, None, now);
      NewMatchesSound(c, offers, rows, None, now);
    }
  }

  /** Over a table keyed by id, a customer without automatic matching gets nothing from the sweep. */
  lemma SweepSkipsManualOnly(customers: seq<Customer>, offers: seq<Offer>, rows: seq<Application>, now: Timestamp,
                             c: Customer)
    requires CustomerIdsUnique(customers) && c in customers && Auto !in c.modes
    ensures forall a :: a in SweepBatch(AutoCustomers(customers), offers, rows, now) ==> a.customer != c.id
  {
    SweepOnlyAutoCustomers(customers, offers, rows, now);
    forall a | a in SweepBatch(AutoCustomers(customers), offers, rows, now)
      ensures a.customer != c.id
    {
      var d :| d in customers && Auto in d.modes && a.customer == d.id;
      CustomerIdDetermines(customers, c, d);
    }
  }

  /**
   * Every automatically matched customer gets an application for each offer, of
   * any lender, that is active, accepts its score and was not applied to yet.
   */
  lemma SweepComplete(customers: seq<Customer>, offers: seq<Offer>, rows: seq<Application>, now: Timestamp,
                      c: Customer, o: Offer)
    requires c in customers && Auto in c.modes
    requires o in offers && Suitable(o, c, now) && !HasApplied(rows, c.id, o.id)
    ensures NewApplication(c.id, o.id) in SweepBatch(AutoCustomers(customers), offers, rows, now)
  {
    SweepBatchMembership(AutoCustomers(customers), offers, rows, now);
    NewMatchesComplete(c, offers, rows, None, now, o);
  }

  /** With no automatically matched customer the visited list is empty. */
  lemma {:induction false} AutoCustomersEmpty(customers: seq<Customer>)
    requires forall c :: c in customers ==> Auto !in c.modes
    ensures AutoCustomers(customers) == []
  {
    if customers != [] {
      assert customers[0] in customers;
      forall c | c in customers[1..] ensures Auto !in c.modes {
        assert c in customers;
      }
      AutoCustomersEmpty(customers[1..]);
    }
  }

  /** With no automatically matched customer the sweep inserts an empty batch. */
  lemma SweepWithoutAutoCustomersIsEmpty(customers: seq<Customer>, offers: seq<Offer>, rows: seq<Application>,
                                         now: Timestamp)
    requires forall c :: c in customers ==> Auto !in c.modes
    ensures SweepBatch(AutoCustomers(customers), offers, rows, now) == []
  {
    AutoCustomersEmpty(customers);
  }

  /**
   * Three customers with modes {auto}, {manual, auto} and {manual}: the sweep
   * matches the first two, in that order, and inserts their results as one batch.
   */
  lemma SweepVisitsAutoCustomersInOrder(c1: Customer, c2: Customer, c3: Customer, offers: seq<Offer>,
                                        rows: seq<Application>, now: Timestamp)
    requires c1.modes == {Auto} && c2.modes == {Manual, Auto} && c3.modes == {Manual}
    ensures AutoCustomers([c1, c2, c3]) == [c1, c2]
    ensures SweepBatch(AutoCustomers([c1, c2, c3]), offers, rows, now)
            == NewMatches(c1, offers, rows, None, now) + NewMatches(c2, offers, rows, None, now)
  {
    assert [c1, c2, c3][1..] == [c2, c3];
    assert [c2, c3][1..] == [c3];
    assert [c3][1..] == [];
    assert Auto !in c3.modes;
    assert AutoCustomers([c3]) == [];
    assert AutoCustomers([c2, c3]) == [c2];
    assert AutoCustomers([c1, c2, c3]) == [c1, c2];
    assert [c1, c2][..1] == [c1];
    assert [c1][..0] == [];
    assert SweepBatch([c1], offers, rows, now) == NewMatches(c1, offers, rows, None, now);
  }
}
