/**
 * The request side of application creation: the two create serializers, their
 * field validators run in declared order, the cross-field ownership check, and
 * what each one's save does.
 */
module ApplicationSerializers {
  import opened Basics
  import opened LenderModels
  import opened ApplicationModels
  import opened PartnerModels
  import opened ApplicationTasks

  // ---------------------------------------------------------------------------
  // Integer fields

  /** A request value as received: form text, or a JSON number. */
  datatype RawValue = Text(s: string) | Int(n: int)

  predicate IsDigit(ch: char) {
    '0' <= ch <= '9'
  }

  predicate AllDigits(s: string) {
    forall i :: 0 <= i < |s| ==> IsDigit(s[i])
  }

  /** The number a run of decimal digits denotes, most significant first. */
  function DigitsValue(s: string): nat
    requires AllDigits(s)
  {
    if s == [] then 0
    else DigitsValue(s[..|s| - 1]) * 10 + (s[|s| - 1] as int - '0' as int)
  }

  /**
   * An integer field's parse: a number is taken as it is; text must be a
   * non-empty run of decimal digits, optionally after a minus sign.
   */
  function ParseInteger(v: RawValue): (r: Option<int>)
    ensures v.Int? ==> r == Some(v.n)
    ensures v.Text? && r.Some? ==>
      |v.s| > 0 && forall i :: 0 <= i < |v.s| ==> IsDigit(v.s[i]) || (i == 0 && v.s[i] == '-' && |v.s| > 1)
    ensures v.Text? && |v.s| > 0 && AllDigits(v.s) ==> r == Some(DigitsValue(v.s))
    ensures v.Text? && |v.s| > 1 && v.s[0] == '-' && AllDigits(v.s[1..]) ==> r == Some(0 - DigitsValue(v.s[1..]))
  {
    match v
    case Int(n) => Some(n)
    case Text(s) =>
      if |s| > 0 && AllDigits(s) then Some(DigitsValue(s))
      else if |s| > 1 && s[0] == '-' && AllDigits(s[1..]) then
        assert forall i :: 1 <= i < |s| ==> s[i] == s[1..][i - 1];
        var magnitude: int := DigitsValue(s[1..]);
        Some(-magnitude)
      else None
  }

  /** The shortest decimal spelling of a natural number. */
  function DecimalString(n: nat): (s: string)
    ensures |s| > 0 && AllDigits(s) && DigitsValue(s) == n
  {
    var d := [('0' as int + n % 10) as char];
    if n < 10 then d
    else
      var prefix := DecimalString(n / 10);
      assert (prefix + d)[..|prefix + d| - 1] == prefix;
      prefix + d
  }

  /** The decimal spelling of an integer, with a minus sign when negative. */
  function IntegerText(n: int): string {
    if n < 0 then ['-'] + DecimalString(-n) else DecimalString(n)
  }

  /** Every integer sent as its decimal text parses back to itself. */
  lemma ParseIntegerText(n: int)
    ensures ParseInteger(Text(IntegerText(n))) == Some(n)
  {
    if n < 0 {
      var s := IntegerText(n);
      assert s[1..] == DecimalString(-n);
      assert !IsDigit(s[0]);
    }
  }

  // ---------------------------------------------------------------------------
  // Field validators

  /** What a field validator yields: a value, a validation error, or a 404 that escapes validation at once. */
  datatype FieldResult<T> = Accepted(value: T) | Rejected(reason: Reason) | Raised404

  /**
   * customer_id: an integer naming an existing customer whose modes include
   * manual matching. An unknown id is answered with 404 on the spot.
   */
  function CustomerIdField(raw: Option<RawValue>, customers: seq<Customer>): (f: FieldResult<Customer>)
    ensures f.Accepted? ==>
      raw.Some? && ParseInteger(raw.value) == Some(f.value.id) && f.value in customers && Manual in f.value.modes
    ensures f.Raised404? <==>
      raw.Some? && ParseInteger(raw.value).Some? && forall c :: c in customers ==> c.id != ParseInteger(raw.value).value
    ensures f == Rejected(ManualModeRequired) ==>
      raw.Some? && exists c :: c in customers && Some(c.id) == ParseInteger(raw.value) && Manual !in c.modes
    ensures f == Rejected(CustomerIdRequired) <==> raw.None?
    ensures f == Rejected(CustomerIdNotInteger) <==> raw.Some? && ParseInteger(raw.value).None?
    ensures CustomerIdsUnique(customers) && raw.Some? ==>
      forall c :: c in customers && ParseInteger(raw.value) == Some(c.id) ==>
        f == if Manual in c.modes then Accepted(c) else Rejected(ManualModeRequired)
  {
    if raw.None? then Rejected(CustomerIdRequired)
    else match ParseInteger(raw.value)
      case None => Rejected(CustomerIdNotInteger)
      case Some(n) =>
        match FindCustomer(customers, n)
        case None => Raised404
        case Some(c) =>
          assert CustomerIdsUnique(customers) ==> forall d :: d in customers && d.id == n ==> d == c by {
            if CustomerIdsUnique(customers) {
              forall d | d in customers && d.id == n ensures d == c {
                CustomerIdDetermines(customers, c, d);
              }
            }
          }
          if Manual in c.modes then Accepted(c) else Rejected(ManualModeRequired)
  }

  /** The lender table holds a lender with this primary key. */
  predicate KnownLender(lenders: set<LenderId>, n: int) {
    n >= 0 && n as LenderId in lenders
  }

  /** lender_id on the certain-lender path: an integer naming an existing lender; an unknown one is a 404. */
  function CertainLenderIdField(raw: Option<RawValue>, lenders: set<LenderId>): (f: FieldResult<LenderId>)
    ensures f.Accepted? ==> raw.Some? && ParseInteger(raw.value) == Some(f.value) && f.value in lenders
    ensures f.Raised404? <==> raw.Some? && ParseInteger(raw.value).Some? && !KnownLender(lenders, ParseInteger(raw.value).value)
    ensures raw.Some? && ParseInteger(raw.value).Some? && KnownLender(lenders, ParseInteger(raw.value).value) ==>
      f == Accepted(ParseInteger(raw.value).value as LenderId)
    ensures f == Rejected(LenderIdRequired) <==> raw.None?
    ensures f == Rejected(LenderIdNotInteger) <==> raw.Some? && ParseInteger(raw.value).None?
  {
    if raw.None? then Rejected(LenderIdRequired)
    else match ParseInteger(raw.value)
      case None => Rejected(LenderIdNotInteger)
      case Some(n) => if KnownLender(lenders, n) then Accepted(n as LenderId) else Raised404
  }

  /** lender_id on the all-lenders path: must be the text "all"; a number is read as its text and refused. */
  function AllLendersIdField(raw: Option<RawValue>): (f: FieldResult<()>)
    ensures !f.Raised404?
    ensures f.Accepted? <==> raw == Some(Text("all"))
  {
    if raw.None? then Rejected(LenderIdRequired)
    else match raw.value
      case Text(s) => if s == "all" then Accepted(()) else Rejected(LenderIdNotAll)
      case Int(_) => Rejected(LenderIdNotAll)
  }

  // ---------------------------------------------------------------------------
  // Whole-request validation

  /** `partner` owns a customer with this id. */
  predicate OwnsCustomer(customers: seq<Customer>, partner: PartnerId, id: CustomerId) {
    exists c :: c in customers && c.id == id && c.partner == partner
  }

  /**
   * The cross-field check: the user must carry a partner profile (group
   * membership is not looked at), and that partner must own the customer.
   */
  function CheckOwnership(actor: Actor, customerId: CustomerId, customers: seq<Customer>): (e: Option<Reason>)
    ensures e.None? <==> actor.partner.Some? && OwnsCustomer(customers, actor.partner.value, customerId)
    ensures e == Some(NotAPartner) <==> actor.partner.None?
  {
    if actor.partner.None? then Some(NotAPartner)
    else if OwnsCustomer(customers, actor.partner.value, customerId) then None
    else Some(NotOwner)
  }

  /** The reasons of the fields that failed, in declared order. */
  function FieldErrors<T, U>(a: FieldResult<T>, b: FieldResult<U>): seq<Reason> {
    (if a.Rejected? then [a.reason] else []) + (if b.Rejected? then [b.reason] else [])
  }

  /**
   * The validation run: customer_id, then lender_id (a 404 from either ends it);
   * any field errors answer 400 together; only then the ownership check.
   */
  function RunValidation<L>(actor: Actor, cf: FieldResult<Customer>, lf: FieldResult<L>, customers: seq<Customer>)
    : (r: Result<(Customer, L)>)
    ensures r == Err(NotFound) <==> cf.Raised404? || lf.Raised404?
    ensures r.Ok? ==> cf == Accepted(r.value.0) && lf == Accepted(r.value.1)
    ensures r.Ok? ==> actor.partner.Some? && OwnsCustomer(customers, actor.partner.value, r.value.0.id)
    ensures r.Err? && r.failure.Invalid? ==> |r.failure.reasons| > 0
    ensures cf.Accepted? && lf.Accepted? && actor.partner.None? ==> r == Err(Invalid([NotAPartner]))
    ensures cf.Accepted? && lf.Accepted? && actor.partner.Some? ==>
      && (r.Ok? <==> OwnsCustomer(customers, actor.partner.value, cf.value.id))
      && (r.Err? ==> r == Err(Invalid([NotOwner])))
    ensures !cf.Raised404? && !lf.Raised404? && (cf.Rejected? || lf.Rejected?) ==>
      r.Err? && r.failure.Invalid? &&
      (cf.Rejected? ==> cf.reason in r.failure.reasons) && (lf.Rejected? ==> lf.reason in r.failure.reasons)
  {
    if cf.Raised404? || lf.Raised404? then Err(NotFound)
    else if cf.Rejected? || lf.Rejected? then Err(Invalid(FieldErrors(cf, lf)))
    else match CheckOwnership(actor, cf.value.id, customers)
      case Some(reason) => Err(Invalid([reason]))
      case None => Ok((cf.value, lf.value))
  }

  /** A create request's body fields; `status` is read only by the default serializer. */
  datatype CreateRequest = CreateRequest(customerId: Option<RawValue>, lenderId: Option<RawValue>, status: Option<RawValue>)

  /** A request that passed validation: where to send the customer. */
  datatype Validated = ToCertainLender(customer: Customer, lender: LenderId) | ToAllLenders(customer: Customer)

  /**
   * What every accepted request guarantees about its customer: it is the one the
   * request names, it exists, it allows manual matching, and the user's partner owns it.
   */
  predicate Admissible(actor: Actor, req: CreateRequest, customers: seq<Customer>, c: Customer) {
    && req.customerId.Some? && ParseInteger(req.customerId.value) == Some(c.id)
    && c in customers && Manual in c.modes
    && actor.partner.Some? && OwnsCustomer(customers, actor.partner.value, c.id)
  }

  /** Validation by the certain-lender serializer. */
  function ValidateCertainLender(actor: Actor, req: CreateRequest, customers: seq<Customer>, lenders: set<LenderId>)
    : (r: Result<Validated>)
    ensures r.Ok? ==> r.value.ToCertainLender? && Admissible(actor, req, customers, r.value.customer)
    ensures r.Ok? ==>
      r.value.lender in lenders && req.lenderId.Some? && Some(r.value.lender as int) == ParseInteger(req.lenderId.value)
  {
    var v := RunValidation(actor, CustomerIdField(req.customerId, customers), CertainLenderIdField(req.lenderId, lenders), customers);
    if v.Ok? then Ok(ToCertainLender(v.value.0, v.value.1)) else Err(v.failure)
  }

  /** Validation by the all-lenders serializer. */
  function ValidateAllLenders(actor: Actor, req: CreateRequest, customers: seq<Customer>): (r: Result<Validated>)
    ensures r.Ok? ==> r.value.ToAllLenders? && Admissible(actor, req, customers, r.value.customer)
    ensures r.Ok? ==> req.lenderId == Some(Text("all"))
  {
    var v := RunValidation(actor, CustomerIdField(req.customerId, customers), AllLendersIdField(req.lenderId), customers);
    if v.Ok? then Ok(ToAllLenders(v.value.0)) else Err(v.failure)
  }

  /** An id no customer carries is answered with 404 by both serializers, whatever else the request holds. */
  lemma UnknownCustomerIsNotFound(actor: Actor, req: CreateRequest, customers: seq<Customer>, lenders: set<LenderId>,
                                  n: int)
    requires req.customerId.Some? && ParseInteger(req.customerId.value) == Some(n)
    requires forall c :: c in customers ==> c.id != n
    ensures ValidateCertainLender(actor, req, customers, lenders) == Err(NotFound)
    ensures ValidateAllLenders(actor, req, customers) == Err(NotFound)
  {
  }

  /** On the certain-lender path, a lender id naming no lender is answered with 404, whatever else the request holds. */
  lemma UnknownLenderIsNotFound(actor: Actor, req: CreateRequest, customers: seq<Customer>, lenders: set<LenderId>,
                                n: int)
    requires req.lenderId.Some? && ParseInteger(req.lenderId.value) == Some(n) && !KnownLender(lenders, n)
    ensures ValidateCertainLender(actor, req, customers, lenders) == Err(NotFound)
  {
  }

  /**
   * A request naming an existing customer with manual matching, owned by the
   * user's partner, is accepted by the certain-lender serializer when lender_id
   * names an existing lender.
   */
  lemma ValidCertainLenderRequestAccepted(actor: Actor, req: CreateRequest, customers: seq<Customer>,
                                          lenders: set<LenderId>, c: Customer, lender: LenderId)
    requires CustomerIdsUnique(customers) && c in customers && Manual in c.modes && actor.partner == Some(c.partner)
    requires req.customerId.Some? && ParseInteger(req.customerId.value) == Some(c.id)
    requires req.lenderId.Some? && ParseInteger(req.lenderId.value) == Some(lender as int) && lender in lenders
    ensures ValidateCertainLender(actor, req, customers, lenders) == Ok(ToCertainLender(c, lender))
  {
    assert OwnsCustomer(customers, actor.partner.value, c.id);
  }

  /**
   * A request naming an existing customer with manual matching, owned by the
   * user's partner, is accepted by the all-lenders serializer when lender_id is "all".
   */
  lemma ValidAllLendersRequestAccepted(actor: Actor, req: CreateRequest, customers: seq<Customer>, c: Customer)
    requires CustomerIdsUnique(customers) && c in customers && Manual in c.modes && actor.partner == Some(c.partner)
    requires req.customerId.Some? && ParseInteger(req.customerId.value) == Some(c.id)
    requires req.lenderId == Some(Text("all"))
    ensures ValidateAllLenders(actor, req, customers) == Ok(ToAllLenders(c))
  {
    assert OwnsCustomer(customers, actor.partner.value, c.id);
  }

  /**
   * A customer that exists but belongs to another partner is refused with 400,
   * not 404, by both serializers: the answer tells an existing id from an unknown one.
   */
  lemma ForeignCustomerIsInvalid(actor: Actor, req: CreateRequest, customers: seq<Customer>, lenders: set<LenderId>,
                                 c: Customer)
    requires CustomerIdsUnique(customers) && c in customers && Manual in c.modes
    requires req.customerId.Some? && ParseInteger(req.customerId.value) == Some(c.id)
    requires actor.partner.Some? && c.partner != actor.partner.value
    ensures req.lenderId == Some(Text("all")) ==> ValidateAllLenders(actor, req, customers) == Err(Invalid([NotOwner]))
    ensures req.lenderId.Some? && ParseInteger(req.lenderId.value).Some? && KnownLender(lenders, ParseInteger(req.lenderId.value).value)
      ==> ValidateCertainLender(actor, req, customers, lenders) == Err(Invalid([NotOwner]))
  {
    forall d | d in customers && d.id == c.id
      ensures d.partner != actor.partner.value
    {
      CustomerIdDetermines(customers, c, d);
    }
  }

  /** A customer without manual matching is never accepted, by either serializer. */
  lemma ManualModeGate(actor: Actor, req: CreateRequest, customers: seq<Customer>, lenders: set<LenderId>, c: Customer)
    requires CustomerIdsUnique(customers) && c in customers && Manual !in c.modes
    requires req.customerId.Some? && ParseInteger(req.customerId.value) == Some(c.id)
    ensures ValidateCertainLender(actor, req, customers, lenders).Err?
    ensures ValidateAllLenders(actor, req, customers).Err?
  {
    var f := FindCustomer(customers, c.id);
    CustomerIdDetermines(customers, c, f.value);
  }

  /** A user without a partner profile is never accepted, by either serializer. */
  lemma PartnerGate(actor: Actor, req: CreateRequest, customers: seq<Customer>, lenders: set<LenderId>)
    requires actor.partner.None?
    ensures ValidateCertainLender(actor, req, customers, lenders).Err?
    ensures ValidateAllLenders(actor, req, customers).Err?
  {
  }

  /** A lender id that is not a number is a field error on the certain-lender path, unless the customer is unknown. */
  lemma NonNumericLenderId(actor: Actor, customers: seq<Customer>, lenders: set<LenderId>, customerId: Option<RawValue>)
    ensures var r := ValidateCertainLender(actor, CreateRequest(customerId, Some(Text("lal")), None), customers, lenders);
      r.Err? && (r.failure == NotFound || (r.failure.Invalid? && LenderIdNotInteger in r.failure.reasons))
  {
    assert !IsDigit("lal"[0]);
  }

  // ---------------------------------------------------------------------------
  // Saving

  /**
   * The certain-lender serializer's save: matches the customer within that
   * lender's offers and bulk-inserts the new applications.
   */
  method SaveToCertainLender(store: ApplicationStore, c: Customer, lender: LenderId, offers: seq<Offer>, now: Timestamp)
    returns (existed: seq<Application>, newApps: seq<Application>)
    requires store.Valid() && OfferIdsUnique(offers)
    modifies store
    ensures store.Valid()
    ensures existed == ExistingApplications(c, old(store.rows), offers, Some(lender))
    ensures newApps == NewMatches(c, offers, old(store.rows), Some(lender), now)
    ensures store.rows == old(store.rows) + newApps
  {
    var out := MatchWithOffers(c, offers, store.rows, Some(lender), now, true);
    NewMatchesFresh(c, offers, store.rows, Some(lender), now);
    var ok := store.BulkInsert(out.newApps);
    existed, newApps := out.existed, out.newApps;
  }

  /** The all-lenders serializer's save: defers matching to the single-customer task, given the customer's id. */
  method SaveToAllLenders(queue: TaskQueue, c: Customer)
    modifies queue
    ensures queue.pending == old(queue.pending) + [c.id]
  {
    queue.Delay(c.id);
  }
}
