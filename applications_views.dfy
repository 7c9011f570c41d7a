/**
 * The application endpoints: the scoped list, creation (routed to one of the
 * create serializers by lender_id), and one application by id, whose status
 * only a lender may change.
 */
module ApplicationViews {
  import opened Basics
  import opened LenderModels
  import opened ApplicationModels
  import opened PartnerModels
  import opened ApplicationTasks
  import opened ApplicationSerializers

  // ---------------------------------------------------------------------------
  // Scoping

  /**
   * Who may see an application: a partner only those of its customers, a lender
   * only those on its offers, both filters for a user who is both, and no filter
   * at all for a user who is neither.
   */
  predicate ApplicationShown(actor: Actor, a: Application, customers: seq<Customer>, offers: seq<Offer>) {
    && (IsPartner(actor) ==> OwnsCustomer(customers, actor.partner.value, a.customer))
    && (IsLender(actor) ==> OfferOfLender(offers, a.offer, actor.lender.value))
  }

  /** The row with this primary key exists and `actor` may see it. */
  predicate KeyShown(actor: Actor, rows: seq<Application>, pk: int, customers: seq<Customer>, offers: seq<Offer>) {
    0 <= pk < |rows| && ApplicationShown(actor, rows[pk], customers, offers)
  }

  /** The primary keys below `n` that `actor` may see, in increasing order. */
  function ShownKeys(actor: Actor, rows: seq<Application>, customers: seq<Customer>, offers: seq<Offer>, n: nat)
    : (r: seq<nat>)
    requires n <= |rows|
    ensures forall pk: int :: pk in r <==> 0 <= pk < n && ApplicationShown(actor, rows[pk], customers, offers)
    ensures forall i, j :: 0 <= i < j < |r| ==> r[i] < r[j]
  {
    if n == 0 then []
    else
      var prefix := ShownKeys(actor, rows, customers, offers, n - 1);
      if ApplicationShown(actor, rows[n - 1], customers, offers) then
        assert forall i :: 0 <= i < |prefix| ==> prefix[i] in prefix;
        prefix + [n - 1]
      else prefix
  }

  /** GET on the application list: the keys of every application `actor` may see, each once, in table order. */
  function ApplicationList(actor: Actor, rows: seq<Application>, customers: seq<Customer>, offers: seq<Offer>)
    : (r: seq<nat>)
    ensures forall pk: int :: pk in r <==> KeyShown(actor, rows, pk, customers, offers)
    ensures forall i, j :: 0 <= i < j < |r| ==> r[i] < r[j]
  {
    ShownKeys(actor, rows, customers, offers, |rows|)
  }

  /** Over a table keyed by id, a lender never sees an application on another lender's offer. */
  lemma LenderNeverSeesForeignApplication(actor: Actor, rows: seq<Application>, pk: nat, customers: seq<Customer>,
                                          offers: seq<Offer>, o: Offer)
    requires OfferIdsUnique(offers) && IsLender(actor)
    requires pk < |rows| && o in offers && o.id == rows[pk].offer && o.lender != actor.lender.value
    ensures !KeyShown(actor, rows, pk, customers, offers)
  {
    forall p | p in offers && p.id == rows[pk].offer
      ensures p.lender != actor.lender.value
    {
      OfferIdDetermines(offers, o, p);
    }
  }

  // ---------------------------------------------------------------------------
  // Creation

  datatype SerializerChoice = ReadSerializer | CertainLenderSerializer | AllLendersSerializer

  /**
   * The serializer a request is handled by. On POST, a lender_id equal to the
   * text "all" picks the all-lenders serializer and any other lender_id the
   * certain-lender one; without lender_id, and for other methods, the read serializer.
   */
  function SerializerFor(verb: HttpMethod, lenderId: Option<RawValue>): (s: SerializerChoice)
    ensures s == AllLendersSerializer <==> verb == Post && lenderId == Some(Text("all"))
    ensures s == CertainLenderSerializer <==> verb == Post && lenderId.Some? && lenderId != Some(Text("all"))
  {
    if verb == Post && lenderId.Some? then
      if lenderId.value == Text("all") then AllLendersSerializer else CertainLenderSerializer
    else ReadSerializer
  }

  /** The all-lenders serializer's lender_id validator never fails on a request routed to it. */
  lemma RoutedAllLendersIdAccepted(lenderId: Option<RawValue>)
    requires SerializerFor(Post, lenderId) == AllLendersSerializer
    ensures AllLendersIdField(lenderId).Accepted?
  {
  }

  /**
   * What a create request comes to before anything is stored. Without lender_id
   * the read serializer wants an integer status; given one, saving a row without
   * customer and offer fails with an integrity error.
   */
  function ValidateCreate(actor: Actor, req: CreateRequest, customers: seq<Customer>, lenders: set<LenderId>)
    : (r: Result<Validated>)
    ensures r.Ok? ==> Admissible(actor, req, customers, r.value.customer)
    ensures r.Ok? && r.value.ToAllLenders? <==> r.Ok? && req.lenderId == Some(Text("all"))
    ensures r.Ok? && r.value.ToCertainLender? ==> r.value.lender in lenders
    ensures req.lenderId.None? ==> r.Err? && (r.failure == ServerError || r.failure.Invalid?)
  {
    match SerializerFor(Post, req.lenderId)
    case AllLendersSerializer => ValidateAllLenders(actor, req, customers)
    case CertainLenderSerializer => ValidateCertainLender(actor, req, customers, lenders)
    case ReadSerializer =>
      if req.status.None? then Err(Invalid([StatusRequired]))
      else if ParseInteger(req.status.value).None? then Err(Invalid([StatusNotInteger]))
      else Err(ServerError)
  }

  /**
   * A request naming an existing customer with manual matching, owned by the
   * user's partner, is accepted: with lender_id "all" for every lender, with the
   * id of an existing lender for that one.
   */
  lemma ValidCreateAccepted(actor: Actor, req: CreateRequest, customers: seq<Customer>, lenders: set<LenderId>,
                            c: Customer)
    requires CustomerIdsUnique(customers) && c in customers && Manual in c.modes && actor.partner == Some(c.partner)
    requires req.customerId.Some? && ParseInteger(req.customerId.value) == Some(c.id)
    ensures req.lenderId == Some(Text("all")) ==> ValidateCreate(actor, req, customers, lenders) == Ok(ToAllLenders(c))
    ensures req.lenderId.Some? && ParseInteger(req.lenderId.value).Some? && KnownLender(lenders, ParseInteger(req.lenderId.value).value)
      ==> ValidateCreate(actor, req, customers, lenders) == Ok(ToCertainLender(c, ParseInteger(req.lenderId.value).value as LenderId))
  {
    if req.lenderId == Some(Text("all")) {
      ValidAllLendersRequestAccepted(actor, req, customers, c);
    } else if req.lenderId.Some? && ParseInteger(req.lenderId.value).Some?
              && KnownLender(lenders, ParseInteger(req.lenderId.value).value) {
      ValidCertainLenderRequestAccepted(actor, req, customers, lenders, c, ParseInteger(req.lenderId.value).value as LenderId);
    }
  }

  datatype Message =
    | SentToAllLenders(customer: CustomerId)
    | NoNewSuitableOffers(lender: LenderId, customer: CustomerId)
    | NoSuitableOffers(lender: LenderId, customer: CustomerId)

  /** A 201 answer's body: a message, or the applications just stored. */
  datatype CreateBody = MessageBody(message: Message) | ApplicationsBody(applications: seq<Application>)

  /**
   * The answer to a certain-lender create: the new applications when there are
   * some; otherwise a message that tells "nothing new" from "nothing at all".
   */
  function CertainLenderOutput(customer: CustomerId, lender: LenderId, existed: seq<Application>,
                               newApps: seq<Application>)
    : (b: CreateBody)
    ensures b.ApplicationsBody? <==> newApps != []
    ensures b.ApplicationsBody? ==> b.applications == newApps
    ensures b == MessageBody(NoNewSuitableOffers(lender, customer)) <==> newApps == [] && existed != []
    ensures b == MessageBody(NoSuitableOffers(lender, customer)) <==> newApps == [] && existed == []
  {
    if newApps != [] then ApplicationsBody(newApps)
    else if existed != [] then MessageBody(NoNewSuitableOffers(lender, customer))
    else MessageBody(NoSuitableOffers(lender, customer))
  }

  /**
   * POST on the application list, open to any signed-in user. A refused request
   * stores and schedules nothing. A certain-lender request matches at once within
   * that lender's offers and stores the new applications; an all-lenders request
   * schedules the single-customer task.
   */
  method Create(store: ApplicationStore, queue: TaskQueue, actor: Actor, req: CreateRequest,
                customers: seq<Customer>, lenders: set<LenderId>, offers: seq<Offer>, now: Timestamp)
    returns (r: Result<CreateBody>)
    requires store.Valid() && OfferIdsUnique(offers)
    modifies store, queue
    ensures store.Valid()
    ensures var v := ValidateCreate(actor, req, customers, lenders);
      v.Err? ==> r == Err(v.failure) && store.rows == old(store.rows) && queue.pending == old(queue.pending)
    ensures var v := ValidateCreate(actor, req, customers, lenders);
      v.Ok? && v.value.ToAllLenders? ==>
        && store.rows == old(store.rows)
        && queue.pending == old(queue.pending) + [v.value.customer.id]
        && r == Ok(MessageBody(SentToAllLenders(v.value.customer.id)))
    ensures var v := ValidateCreate(actor, req, customers, lenders);
      v.Ok? && v.value.ToCertainLender? ==>
        var c, lender := v.value.customer, v.value.lender;
        var newApps := NewMatches(c, offers, old(store.rows), Some(lender), now);
        && store.rows == old(store.rows) + newApps
        && queue.pending == old(queue.pending)
        && r == Ok(CertainLenderOutput(c.id, lender, ExistingApplications(c, old(store.rows), offers, Some(lender)), newApps))
  {
    var v := ValidateCreate(actor, req, customers, lenders);
    if v.Err? {
      return Err(v.failure);
    }
    match v.value
    case ToAllLenders(c) =>
      SaveToAllLenders(queue, c);
      r := Ok(MessageBody(SentToAllLenders(c.id)));
    case ToCertainLender(c, lender) =>
      var existed, newApps := SaveToCertainLender(store, c, lender, offers, now);
      r := Ok(CertainLenderOutput(c.id, lender, existed, newApps));
  }

  /**
   * The applications a certain-lender create stores can be read both by the
   * partner that owns the customer and by that lender.
   */
  lemma CreatedApplicationsShown(partnerUser: Actor, lenderUser: Actor, c: Customer, customers: seq<Customer>,
                                 offers: seq<Offer>, rows: seq<Application>, lender: LenderId, now: Timestamp)
    requires partnerUser.partner.Some? && OwnsCustomer(customers, partnerUser.partner.value, c.id) && !IsLender(partnerUser)
    requires lenderUser.lender == Some(lender) && !IsPartner(lenderUser)
    ensures forall a :: a in NewMatches(c, offers, rows, Some(lender), now) ==>
      ApplicationShown(partnerUser, a, customers, offers) && ApplicationShown(lenderUser, a, customers, offers)
  {
    NewMatchesSound(c, offers, rows, Some(lender), now);
    forall a | a in NewMatches(c, offers, rows, Some(lender), now)
      ensures OfferOfLender(offers, a.offer, lender)
    {
      var o :| o in offers && o.id == a.offer && Suitable(o, c, now) && OfferInScope(o, Some(lender));
    }
  }

  // ---------------------------------------------------------------------------
  // One application

  /**
   * The status a PATCH stores: left as it is when the body has none; an
   * integer the column can hold is stored as given, one of the six codes or not;
   * a negative one breaks the column's constraint and one past the column's
   * 32-bit range is refused by the database, both as a server error.
   */
  function PatchedStatus(current: nat, status: Option<RawValue>): (r: Result<nat>)
    ensures status.None? ==> r == Ok(current)
    ensures status.Some? ==>
      (r.Ok? <==> ParseInteger(status.value).Some? && 0 <= ParseInteger(status.value).value <= MaxStatusColumn)
    ensures status.Some? && r.Ok? ==> Some(r.value as int) == ParseInteger(status.value) && r.value <= MaxStatusColumn
    ensures r == Err(Invalid([StatusNotInteger])) <==> status.Some? && ParseInteger(status.value).None?
    ensures r.Err? ==> r.failure == Invalid([StatusNotInteger]) || r.failure == ServerError
  {
    if status.None? then Ok(current)
    else match ParseInteger(status.value)
      case None => Err(Invalid([StatusNotInteger]))
      case Some(n) => if n < 0 || n > MaxStatusColumn then Err(ServerError) else Ok(n)
  }

  /** Every status code sent as its decimal text is stored as that code. */
  lemma PatchedStatusCode(current: nat, s: Status)
    ensures PatchedStatus(current, Some(Text(IntegerText(StatusCode(s))))) == Ok(StatusCode(s))
  {
    ParseIntegerText(StatusCode(s));
  }

  /**
   * One application by primary key. GET reads it; PATCH is for lenders only,
   * and changes nothing but the status; every other method is refused.
   */
  method ApplicationDetail(store: ApplicationStore, actor: Actor, verb: HttpMethod, status: Option<RawValue>, pk: int,
                           customers: seq<Customer>, offers: seq<Offer>)
    returns (r: Result<Application>)
    requires store.Valid()
    modifies store
    ensures store.Valid()
    ensures verb != Get && verb != Patch ==> r == Err(MethodNotAllowed) && store.rows == old(store.rows)
    ensures verb == Get ==>
      && store.rows == old(store.rows)
      && r == if KeyShown(actor, old(store.rows), pk, customers, offers) then Ok(old(store.rows)[pk]) else Err(NotFound)
    ensures verb == Patch && !IsLender(actor) ==> r == Err(Invalid([NotALender])) && store.rows == old(store.rows)
    ensures verb == Patch && IsLender(actor) && !KeyShown(actor, old(store.rows), pk, customers, offers) ==>
      r == Err(NotFound) && store.rows == old(store.rows)
    ensures verb == Patch && IsLender(actor) && KeyShown(actor, old(store.rows), pk, customers, offers) ==>
      var p := PatchedStatus(old(store.rows)[pk].status, status);
      && (p.Err? ==> r == Err(p.failure) && store.rows == old(store.rows))
      && (p.Ok? ==> store.rows == old(store.rows)[pk := old(store.rows)[pk].(status := p.value)] && r == Ok(store.rows[pk]))
  {
    if verb == Get {
      if KeyShown(actor, store.rows, pk, customers, offers) {
        r := Ok(store.rows[pk]);
      } else {
        r := Err(NotFound);
      }
    } else if verb == Patch {
      if !IsLender(actor) {
        r := Err(Invalid([NotALender]));
      } else if !KeyShown(actor, store.rows, pk, customers, offers) {
        r := Err(NotFound);
      } else {
        var p := PatchedStatus(store.rows[pk].status, status);
        if p.Err? {
          r := Err(p.failure);
        } else {
          store.SetStatus(pk, p.value);
          r := Ok(store.rows[pk]);
        }
      }
    } else {
      r := Err(MethodNotAllowed);
    }
  }
}
