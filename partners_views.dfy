/** The customer endpoints: a partner's list and creation of customers; one customer by id. */
module PartnerViews {
  import opened Basics
  import opened LenderModels
  import opened ApplicationModels
  import opened PartnerModels

  /** The customer table; primary keys are handed out in increasing order and never reused. */
  class CustomerTable {
    var rows: seq<Customer>
    var nextId: nat

    ghost predicate Valid()
      reads this
    {
      CustomerIdsUnique(rows) && forall c :: c in rows ==> c.id < nextId
    }

    constructor ()
      ensures Valid() && rows == []
    {
      rows := [];
      nextId := 1;
    }

    /**
     * POST to the customer list. Only a partner gets in; the new customer is
     * owned by that partner, whatever the payload holds, and gets the next key.
     */
    method Create(actor: Actor, payload: CustomerPayload) returns (r: Result<Customer>)
      requires Valid()
      modifies this
      ensures Valid()
      ensures !IsPartner(actor) ==> r == Err(Forbidden) && rows == old(rows) && nextId == old(nextId)
      ensures IsPartner(actor) ==>
        && r == Ok(NewCustomer(old(nextId), payload, actor.partner.value))
        && rows == old(rows) + [r.value]
        && nextId == old(nextId) + 1
    {
      if !IsPartner(actor) {
        return Err(Forbidden);
      }
      var c := NewCustomer(nextId, payload, actor.partner.value);
      forall i, j | 0 <= i < j < |rows + [c]|
        ensures (rows + [c])[i].id != (rows + [c])[j].id
      {
        if j == |rows| {
          assert (rows + [c])[i] in rows;
        } else {
          assert (rows + [c])[i] == rows[i] && (rows + [c])[j] == rows[j];
        }
      }
      rows := rows + [c];
      nextId := nextId + 1;
      r := Ok(c);
    }
  }

  /** `partner`'s customers, in table order. */
  function CustomersOf(customers: seq<Customer>, partner: PartnerId): (r: seq<Customer>)
    ensures forall c :: c in r <==> c in customers && c.partner == partner
  {
    if customers == [] then []
    else
      var rest := CustomersOf(customers[1..], partner);
      assert customers == [customers[0]] + customers[1..];
      if customers[0].partner == partner then [customers[0]] + rest else rest
  }

  /** GET on the customer list: partners only, and each sees exactly its own customers. */
  function CustomerList(actor: Actor, customers: seq<Customer>): (r: Result<seq<Customer>>)
    ensures r.Ok? <==> IsPartner(actor)
    ensures r.Err? ==> r.failure == Forbidden
    ensures r.Ok? ==> forall c :: c in r.value <==> c in customers && c.partner == actor.partner.value
  {
    if IsPartner(actor) then Ok(CustomersOf(customers, actor.partner.value)) else Err(Forbidden)
  }

  /** Some application of this customer concerns one of `lender`'s offers. */
  predicate AppliedToLender(rows: seq<Application>, offers: seq<Offer>, lender: LenderId, customer: CustomerId) {
    exists a :: a in rows && a.customer == customer && OfferOfLender(offers, a.offer, lender)
  }

  /**
   * Who may read a customer: a partner only its own; a lender only those with an
   * application to one of its offers; anyone else every customer.
   */
  predicate CustomerShown(actor: Actor, c: Customer, rows: seq<Application>, offers: seq<Offer>) {
    && (IsPartner(actor) ==> c.partner == actor.partner.value)
    && (IsLender(actor) ==> AppliedToLender(rows, offers, actor.lender.value, c.id))
  }

  /** The customers `actor` may read, in table order. */
  function ShownCustomers(actor: Actor, customers: seq<Customer>, rows: seq<Application>, offers: seq<Offer>)
    : (r: seq<Customer>)
    ensures forall c :: c in r <==> c in customers && CustomerShown(actor, c, rows, offers)
  {
    if customers == [] then []
    else
      var rest := ShownCustomers(actor, customers[1..], rows, offers);
      assert customers == [customers[0]] + customers[1..];
      if CustomerShown(actor, customers[0], rows, offers) then [customers[0]] + rest else rest
  }

  /** One customer by primary key; only reading is allowed. */
  function CustomerDetail(actor: Actor, verb: HttpMethod, customers: seq<Customer>, rows: seq<Application>,
                          offers: seq<Offer>, pk: int)
    : (r: Result<Customer>)
    ensures verb != Get ==> r == Err(MethodNotAllowed)
    ensures r.Ok? ==> r.value in customers && r.value.id == pk && CustomerShown(actor, r.value, rows, offers)
    ensures verb == Get ==> (r.Ok? <==> exists c :: c in customers && c.id == pk && CustomerShown(actor, c, rows, offers))
    ensures verb == Get && r.Err? ==> r.failure == NotFound
  {
    if verb != Get then Err(MethodNotAllowed)
    else match FindCustomer(ShownCustomers(actor, customers, rows, offers), pk)
      case None => Err(NotFound)
      case Some(c) => Ok(c)
  }

  /**
   * Once a dispatch to one lender has stored at least one application, that
   * lender (if it is not also a partner) can read the customer.
   */
  lemma DispatchRevealsCustomerToLender(actor: Actor, customers: seq<Customer>, c: Customer, offers: seq<Offer>,
                                        rows: seq<Application>, now: Timestamp)
    requires CustomerIdsUnique(customers) && c in customers
    requires IsLender(actor) && !IsPartner(actor)
    requires NewMatches(c, offers, rows, Some(actor.lender.value), now) != []
    ensures CustomerDetail(actor, Get, customers, rows + NewMatches(c, offers, rows, Some(actor.lender.value), now),
                           offers, c.id) == Ok(c)
  {
    var lender := actor.lender.value;
    var news := NewMatches(c, offers, rows, Some(lender), now);
    NewMatchesSound(c, offers, rows, Some(lender), now);
    var a := news[0];
    assert a in news && a in rows + news;
    var o :| o in offers && o.id == a.offer && Suitable(o, c, now) && OfferInScope(o, Some(lender));
    assert AppliedToLender(rows + news, offers, lender, c.id);
    var r := CustomerDetail(actor, Get, customers, rows + news, offers, c.id);
    CustomerIdDetermines(customers, c, r.value);
  }
}
