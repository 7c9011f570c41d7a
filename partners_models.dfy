/**
 * Customers (the profiles partners submit) and the offer-matching engine:
 * which active, score-eligible offers a customer has not applied to yet.
 */
module PartnerModels {
  import opened Basics
  import opened LenderModels
  import opened ApplicationModels

  /** Manual: the owning partner may request matching. Auto: the periodic sweep matches the customer. */
  datatype Mode = Manual | Auto

  /** A new customer may be matched both ways unless told otherwise. */
  const DefaultModes: set<Mode> := {Manual, Auto}

  /** Personal fields; the core never looks inside them. */
  datatype PersonalData = PersonalData(
    surname: string,
    name: string,
    patronymic: string,
    birthDate: string,
    phoneNumber: string,
    passportNumber: string)

  datatype Customer = Customer(
    id: CustomerId,
    personal: PersonalData,
    creditScore: nat,
    partner: PartnerId,
    modes: set<Mode>)

  /** What a partner sends to create a customer; the matching modes may be omitted. */
  datatype CustomerPayload = CustomerPayload(
    personal: PersonalData,
    creditScore: nat,
    modes: Option<set<Mode>>)

  /** The customer stored for a payload, owned by `partner`. */
  function NewCustomer(id: CustomerId, p: CustomerPayload, partner: PartnerId): Customer {
    Customer(id, p.personal, p.creditScore, partner,
             if p.modes.Some? then p.modes.value else DefaultModes)
  }

  /** Leaving the modes out enables both manual and automatic matching. */
  lemma NewCustomerDefaultModes(id: CustomerId, p: CustomerPayload, partner: PartnerId)
    requires p.modes.None?
    ensures Manual in NewCustomer(id, p, partner).modes && Auto in NewCustomer(id, p, partner).modes
  {
  }

  /** The customer table is keyed by id. */
  predicate CustomerIdsUnique(customers: seq<Customer>) {
    forall i, j :: 0 <= i < j < |customers| ==> customers[i].id != customers[j].id
  }

  /** Looks a customer up by primary key. */
  function FindCustomer(customers: seq<Customer>, id: int): (r: Option<Customer>)
    ensures r.None? <==> forall c :: c in customers ==> c.id != id
    ensures r.Some? ==> r.value in customers && r.value.id == id
  {
    if customers == [] then None
    else if customers[0].id == id then Some(customers[0])
    else FindCustomer(customers[1..], id)
  }

  /** In a table keyed by id, two rows are the same row exactly when they carry the same id. */
  lemma CustomerIdDetermines(customers: seq<Customer>, c1: Customer, c2: Customer)
    requires CustomerIdsUnique(customers) && c1 in customers && c2 in customers
    ensures c1 == c2 <==> c1.id == c2.id
  {
    var i :| 0 <= i < |customers| && customers[i] == c1;
    var j :| 0 <= j < |customers| && customers[j] == c2;
  }

  // ---------------------------------------------------------------------------
  // The matching engine

  /** Some row of the offer table with this id belongs to `lender`. */
  predicate OfferOfLender(offers: seq<Offer>, offerId: OfferId, lender: LenderId) {
    exists o :: o in offers && o.id == offerId && o.lender == lender
  }

  /** The application concerns `lender`'s offers, or no lender was named. */
  predicate ApplicationInScope(offers: seq<Offer>, a: Application, lender: Option<LenderId>) {
    lender.None? || OfferOfLender(offers, a.offer, lender.value)
  }

  /** The offer is `lender`'s, or no lender was named. */
  predicate OfferInScope(o: Offer, lender: Option<LenderId>) {
    lender.None? || o.lender == lender.value
  }

  /** The customer's applications, restricted to one lender's offers when a lender is named. */
  function ExistingApplications(c: Customer, rows: seq<Application>, offers: seq<Offer>, lender: Option<LenderId>)
    : (r: seq<Application>)
    ensures forall a :: a in r <==> a in rows && a.customer == c.id && ApplicationInScope(offers, a, lender)
  {
    if rows == [] then []
    else
      var rest := ExistingApplications(c, rows[1..], offers, lender);
      assert rows == [rows[0]] + rows[1..];
      if rows[0].customer == c.id && ApplicationInScope(offers, rows[0], lender) then [rows[0]] + rest
      else rest
  }

  /** The offer ids those applications point at. */
  function ExistedOfferIds(existing: seq<Application>): set<OfferId> {
    set a | a in existing :: a.offer
  }

  /** The offer query's condition: score range, rotation window, not excluded, lender scope. */
  predicate Selected(o: Offer, score: nat, now: Timestamp, excluded: set<OfferId>, lender: Option<LenderId>) {
    AcceptsScore(o, score) && IsActive(o, now) && o.id !in excluded && OfferInScope(o, lender)
  }

  /** The offers the query returns, in table order. */
  function MatchedOffers(offers: seq<Offer>, score: nat, now: Timestamp, excluded: set<OfferId>, lender: Option<LenderId>)
    : (r: seq<Offer>)
    ensures forall o :: o in r <==> o in offers && Selected(o, score, now, excluded, lender)
    ensures OfferIdsUnique(offers) ==> OfferIdsUnique(r)
  {
    if offers == [] then []
    else
      var rest := MatchedOffers(offers[1..], score, now, excluded, lender);
      assert offers == [offers[0]] + offers[1..];
      if Selected(offers[0], score, now, excluded, lender) then
        assert OfferIdsUnique(offers) ==> forall o :: o in rest ==> o.id != offers[0].id by {
          if OfferIdsUnique(offers) {
            forall o | o in rest ensures o.id != offers[0].id {
              var k :| 0 <= k < |offers[1..]| && offers[1..][k] == o;
              assert offers[k + 1] == o;
            }
          }
        }
        [offers[0]] + rest
      else rest
  }

  /** An offer the customer can take at `now`: score in range and offer in rotation, both inclusive. */
  predicate Suitable(o: Offer, c: Customer, now: Timestamp) {
    AcceptsScore(o, c.creditScore) && IsActive(o, now)
  }

  /** The table already holds an application of this customer to this offer. */
  predicate HasApplied(rows: seq<Application>, customer: CustomerId, offer: OfferId) {
    exists b :: b in rows && b.customer == customer && b.offer == offer
  }

  /**
   * The unsaved applications matching builds: one per offer of the query, in
   * the query's order, each for this customer and with the default status.
   */
  function NewMatches(c: Customer, offers: seq<Offer>, rows: seq<Application>, lender: Option<LenderId>, now: Timestamp)
    : seq<Application>
  {
    var existing := ExistingApplications(c, rows, offers, lender);
    var matched := MatchedOffers(offers, c.creditScore, now, ExistedOfferIds(existing), lender);
    seq(|matched|, i requires 0 <= i < |matched| => NewApplication(c.id, matched[i].id))
  }

  datatype MatchOutput =
    | NewOnly(newApps: seq<Application>)
    | ExistedAndNew(existed: seq<Application>, newApps: seq<Application>)

  /**
   * Matches the customer against the offer catalogue at instant `now`, within
   * one lender's offers when a lender is named. Nothing is written: the caller
   * decides whether to store the result.
   */
  method MatchWithOffers(c: Customer, offers: seq<Offer>, rows: seq<Application>, lender: Option<LenderId>,
                         now: Timestamp, returnExisted: bool)
    returns (out: MatchOutput)
    ensures out.ExistedAndNew? <==> returnExisted
    ensures out.newApps == NewMatches(c, offers, rows, lender, now)
    ensures out.ExistedAndNew? ==> out.existed == ExistingApplications(c, rows, offers, lender)
  {
    var existing := ExistingApplications(c, rows, offers, lender);
    var excluded := ExistedOfferIds(existing);
    var matched := MatchedOffers(offers, c.creditScore, now, excluded, lender);
    var newApps: seq<Application> := [];
    for i := 0 to |matched|
      invariant |newApps| == i
      invariant forall k :: 0 <= k < i ==> newApps[k] == NewApplication(c.id, matched[k].id)
    {
      newApps := newApps + [NewApplication(c.id, matched[i].id)];
    }
    if returnExisted {
      out := ExistedAndNew(existing, newApps);
    } else {
      out := NewOnly(newApps);
    }
  }

  // ---------------------------------------------------------------------------
  // What matching guarantees

  /**
   * Every new application is for this customer, has the default status, targets
   * an offer of the catalogue that is in scope, active and accepts the score, and
   * targets no offer the customer has already applied to (whatever its lender).
   */
  lemma NewMatchesSound(c: Customer, offers: seq<Offer>, rows: seq<Application>, lender: Option<LenderId>, now: Timestamp)
    ensures forall a :: a in NewMatches(c, offers, rows, lender, now) ==>
      && a.customer == c.id
      && a.status == DefaultStatus
      && !HasApplied(rows, c.id, a.offer)
      && exists o :: o in offers && o.id == a.offer && Suitable(o, c, now) && OfferInScope(o, lender)
  {
    var existing := ExistingApplications(c, rows, offers, lender);
    var matched := MatchedOffers(offers, c.creditScore, now, ExistedOfferIds(existing), lender);
    var news := NewMatches(c, offers, rows, lender, now);
    forall a | a in news
      ensures a.customer == c.id && a.status == DefaultStatus
      ensures !HasApplied(rows, c.id, a.offer)
      ensures exists o :: o in offers && o.id == a.offer && Suitable(o, c, now) && OfferInScope(o, lender)
    {
      var i :| 0 <= i < |matched| && a == NewApplication(c.id, matched[i].id);
      var o := matched[i];
      assert o in matched;
      forall b | b in rows && b.customer == c.id
        ensures b.offer != o.id
      {
        if ApplicationInScope(offers, b, lender) {
          assert b in existing;
          assert b.offer in ExistedOfferIds(existing);
        }
      }
    }
  }

  /**
   * Completeness: every in-scope offer that is active, accepts the score and is
   * not yet applied to yields a new application.
   */
  lemma NewMatchesComplete(c: Customer, offers: seq<Offer>, rows: seq<Application>, lender: Option<LenderId>,
                           now: Timestamp, o: Offer)
    requires o in offers && Suitable(o, c, now) && OfferInScope(o, lender) && !HasApplied(rows, c.id, o.id)
    ensures NewApplication(c.id, o.id) in NewMatches(c, offers, rows, lender, now)
  {
    var existing := ExistingApplications(c, rows, offers, lender);
    var matched := MatchedOffers(offers, c.creditScore, now, ExistedOfferIds(existing), lender);
    assert o.id !in ExistedOfferIds(existing);
    assert o in matched;
    var i :| 0 <= i < |matched| && matched[i] == o;
    assert NewMatches(c, offers, rows, lender, now)[i] == NewApplication(c.id, o.id);
  }

  /** Over a table keyed by id, the new applications are pairwise distinct: one per offer. */
  lemma NewMatchesUnique(c: Customer, offers: seq<Offer>, rows: seq<Application>, lender: Option<LenderId>, now: Timestamp)
    requires OfferIdsUnique(offers)
    ensures UniquePairs(NewMatches(c, offers, rows, lender, now))
  {
    var existing := ExistingApplications(c, rows, offers, lender);
    var matched := MatchedOffers(offers, c.creditScore, now, ExistedOfferIds(existing), lender);
    var news := NewMatches(c, offers, rows, lender, now);
    forall i, j | 0 <= i < j < |news|
      ensures Key(news[i]) != Key(news[j])
    {
      assert news[i].offer == matched[i].id && news[j].offer == matched[j].id;
    }
  }

  /** Storing the new applications of a duplicate-free table keeps it duplicate-free. */
  lemma NewMatchesFresh(c: Customer, offers: seq<Offer>, rows: seq<Application>, lender: Option<LenderId>, now: Timestamp)
    requires OfferIdsUnique(offers) && UniquePairs(rows)
    ensures UniquePairs(rows + NewMatches(c, offers, rows, lender, now))
  {
    var news := NewMatches(c, offers, rows, lender, now);
    NewMatchesSound(c, offers, rows, lender, now);
    NewMatchesUnique(c, offers, rows, lender, now);
    forall a, b | a in rows && b in news
      ensures Key(a) != Key(b)
    {
      assert !HasApplied(rows, c.id, b.offer);
    }
    UniquePairsConcat(rows, news);
  }

  /** When no offer passes the query, the query is empty. */
  lemma {:induction false} MatchedOffersEmpty(offers: seq<Offer>, score: nat, now: Timestamp,
                                              excluded: set<OfferId>, lender: Option<LenderId>)
    requires forall o :: o in offers ==> !Selected(o, score, now, excluded, lender)
    ensures MatchedOffers(offers, score, now, excluded, lender) == []
  {
    if offers != [] {
      assert offers[0] in offers;
      forall o | o in offers[1..] ensures !Selected(o, score, now, excluded, lender) {
        assert o in offers;
      }
      MatchedOffersEmpty(offers[1..], score, now, excluded, lender);
    }
  }

  /** Once the new applications are stored, matching again with the same scope finds nothing new. */
  lemma RematchAfterInsertIsEmpty(c: Customer, offers: seq<Offer>, rows: seq<Application>, lender: Option<LenderId>,
                                  now: Timestamp)
    ensures NewMatches(c, offers, rows + NewMatches(c, offers, rows, lender, now), lender, now) == []
  {
    var first := NewMatches(c, offers, rows, lender, now);
    var rows' := rows + first;
    var existing' := ExistingApplications(c, rows', offers, lender);
    var excluded' := ExistedOfferIds(existing');
    forall o | o in offers
      ensures !Selected(o, c.creditScore, now, excluded', lender)
    {
      if Suitable(o, c, now) && OfferInScope(o, lender) {
        var b: Application;
        if HasApplied(rows, c.id, o.id) {
          b :| b in rows && b.customer == c.id && b.offer == o.id;
        } else {
          NewMatchesComplete(c, offers, rows, lender, now, o);
          b := NewApplication(c.id, o.id);
          assert b in first;
        }
        assert b in rows';
        assert ApplicationInScope(offers, b, lender);
        assert b in existing';
        assert o.id in excluded';
      }
    }
    MatchedOffersEmpty(offers, c.creditScore, now, excluded', lender);
  }

  /**
   * Matching within one lender yields exactly the all-lenders matches whose offer
   * belongs to that lender.
   */
  lemma ScopedMatchIsRestriction(c: Customer, offers: seq<Offer>, rows: seq<Application>, lender: LenderId, now: Timestamp)
    requires OfferIdsUnique(offers)
    ensures forall a :: a in NewMatches(c, offers, rows, Some(lender), now) <==>
      a in NewMatches(c, offers, rows, None, now) && OfferOfLender(offers, a.offer, lender)
  {
    var scoped := NewMatches(c, offers, rows, Some(lender), now);
    var all := NewMatches(c, offers, rows, None, now);
    NewMatchesSound(c, offers, rows, Some(lender), now);
    NewMatchesSound(c, offers, rows, None, now);
    forall a | a in scoped
      ensures a in all && OfferOfLender(offers, a.offer, lender)
    {
      var o :| o in offers && o.id == a.offer && Suitable(o, c, now) && OfferInScope(o, Some(lender));
      NewMatchesComplete(c, offers, rows, None, now, o);
    }
    forall a | a in all && OfferOfLender(offers, a.offer, lender)
      ensures a in scoped
    {
      var o :| o in offers && o.id == a.offer && Suitable(o, c, now);
      var o' :| o' in offers && o'.id == a.offer && o'.lender == lender;
      OfferIdDetermines(offers, o, o');
      NewMatchesComplete(c, offers, rows, Some(lender), now, o);
    }
  }

  /** With a lender named, the existing applications returned all concern that lender's offers. */
  lemma ExistingApplicationsScoped(c: Customer, rows: seq<Application>, offers: seq<Offer>, lender: LenderId)
    ensures forall a :: a in ExistingApplications(c, rows, offers, Some(lender)) ==>
      a.customer == c.id && OfferOfLender(offers, a.offer, lender)
  {
  }

  /** The customer of the repository's matching scenario: credit score 10. */
  function ScenarioCustomer(): Customer {
    Customer(1, PersonalData("", "", "", "", "", ""), 10, 1, DefaultModes)
  }

  /**
   * The scenario's offers: [1, 5] and [7, 17] of lender 1, the second one also
   * in an expired copy, and [1, 50] of lender 2.
   */
  function ScenarioOffers(): seq<Offer> {
    [ Offer(1, "", ConsumerCredit, -1, 30, 1, 5, 1),
      Offer(2, "", ConsumerCredit, -30, 30, 7, 17, 1),
      Offer(3, "", ConsumerCredit, -60, -30, 7, 17, 1),
      Offer(4, "", ConsumerCredit, -30, 30, 1, 50, 2) ]
  }

  /** With nothing excluded, the query over every lender keeps the second and the fourth offer. */
  lemma ScenarioQueryAll()
    ensures var offers := ScenarioOffers();
      MatchedOffers(offers, 10, 0, {}, None) == [offers[1], offers[3]]
    ensures NewMatches(ScenarioCustomer(), ScenarioOffers(), [], None, 0) == [NewApplication(1, 2), NewApplication(1, 4)]
  {
    ScenarioExisting();
    var offers := ScenarioOffers();
    assert MatchedOffers(offers[3..], 10, 0, {}, None) == [offers[3]];
    assert MatchedOffers(offers[2..], 10, 0, {}, None) == [offers[3]];
    assert MatchedOffers(offers[1..], 10, 0, {}, None) == [offers[1], offers[3]];
  }

  /** With nothing excluded, the query over lender 1 keeps the second offer. */
  lemma ScenarioQueryLender()
    ensures var offers := ScenarioOffers();
      MatchedOffers(offers, 10, 0, {}, Some(1)) == [offers[1]]
    ensures NewMatches(ScenarioCustomer(), ScenarioOffers(), [], Some(1), 0) == [NewApplication(1, 2)]
  {
    ScenarioExisting();
    var offers := ScenarioOffers();
    assert MatchedOffers(offers[3..], 10, 0, {}, Some(1)) == [];
    assert MatchedOffers(offers[2..], 10, 0, {}, Some(1)) == [];
    assert MatchedOffers(offers[1..], 10, 0, {}, Some(1)) == [offers[1]];
  }

  /** With offer 2 excluded, the query over every lender keeps the fourth offer only. */
  lemma ScenarioQueryAllExcluded()
    ensures var offers := ScenarioOffers();
      MatchedOffers(offers, 10, 0, {2}, None) == [offers[3]]
    ensures NewMatches(ScenarioCustomer(), ScenarioOffers(), [NewApplication(1, 2)], None, 0) == [NewApplication(1, 4)]
  {
    ScenarioExisting();
    var offers := ScenarioOffers();
    assert MatchedOffers(offers[3..], 10, 0, {2}, None) == [offers[3]];
    assert MatchedOffers(offers[2..], 10, 0, {2}, None) == [offers[3]];
    assert MatchedOffers(offers[1..], 10, 0, {2}, None) == [offers[3]];
  }

  /** With offer 2 excluded, the query over lender 1 keeps nothing. */
  lemma ScenarioQueryLenderExcluded()
    ensures MatchedOffers(ScenarioOffers(), 10, 0, {2}, Some(1)) == []
    ensures NewMatches(ScenarioCustomer(), ScenarioOffers(), [NewApplication(1, 2)], Some(1), 0) == []
  {
    ScenarioExisting();
    var offers := ScenarioOffers();
    assert MatchedOffers(offers[3..], 10, 0, {2}, Some(1)) == [];
    assert MatchedOffers(offers[2..], 10, 0, {2}, Some(1)) == [];
    assert MatchedOffers(offers[1..], 10, 0, {2}, Some(1)) == [];
  }

  /** The application to offer 2 is the customer's existing one, for every lender and for lender 1. */
  lemma ScenarioExisting()
    ensures ExistingApplications(ScenarioCustomer(), [], ScenarioOffers(), None) == []
    ensures ExistingApplications(ScenarioCustomer(), [], ScenarioOffers(), Some(1)) == []
    ensures ExistingApplications(ScenarioCustomer(), [NewApplication(1, 2)], ScenarioOffers(), None) == [NewApplication(1, 2)]
    ensures ExistingApplications(ScenarioCustomer(), [NewApplication(1, 2)], ScenarioOffers(), Some(1)) == [NewApplication(1, 2)]
    ensures ExistedOfferIds([]) == {} && ExistedOfferIds([NewApplication(1, 2)]) == {2}
  {
    var stored := [NewApplication(1, 2)];
    assert stored[1..] == [];
    assert OfferOfLender(ScenarioOffers(), 2, 1) by {
      assert ScenarioOffers()[1] in ScenarioOffers();
    }
  }

  /**
   * The repository's matching scenario at instant 0: matching against every
   * lender finds offers 2 and 4, against lender 1 offer 2 only; once the
   * application to offer 2 is stored it is reported as existing, and only offer
   * 4 is still new across lenders, nothing for lender 1.
   */
  lemma MatchingScenario()
    ensures var c, offers, stored := ScenarioCustomer(), ScenarioOffers(), [NewApplication(1, 2)];
      && NewMatches(c, offers, [], None, 0) == [NewApplication(1, 2), NewApplication(1, 4)]
      && NewMatches(c, offers, [], Some(1), 0) == stored
      && ExistingApplications(c, stored, offers, None) == stored
      && NewMatches(c, offers, stored, None, 0) == [NewApplication(1, 4)]
      && ExistingApplications(c, stored, offers, Some(1)) == stored
      && NewMatches(c, offers, stored, Some(1), 0) == []
  {
    ScenarioExisting();
    ScenarioQueryAll();
    ScenarioQueryLender();
    ScenarioQueryAllExcluded();
    ScenarioQueryLenderExcluded();
  }
}
