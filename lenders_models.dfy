/** Lending organisations' offers: the catalogue the matching engine reads. */
module LenderModels {
  import opened Basics

  datatype OfferType = ConsumerCredit | Mortgage | CarLoan

  /** The integer stored for an offer type. */
  function OfferTypeCode(t: OfferType): (code: nat)
    ensures 1 <= code <= 3
  {
    match t
    case ConsumerCredit => 1
    case Mortgage => 2
    case CarLoan => 3
  }

  /** Reads a stored integer back; only the three declared choices are offer types. */
  function OfferTypeFromCode(code: int): (t: Option<OfferType>)
    ensures t.Some? <==> 1 <= code <= 3
    ensures t.Some? ==> OfferTypeCode(t.value) == code
  {
    if code == 1 then Some(ConsumerCredit)
    else if code == 2 then Some(Mortgage)
    else if code == 3 then Some(CarLoan)
    else None
  }

  lemma OfferTypeCodeRoundTrip(t: OfferType)
    ensures OfferTypeFromCode(OfferTypeCode(t)) == Some(t)
  {
  }

  /**
   * One offer. The score bounds are non-negative; nothing orders them, nor the
   * rotation window's ends, so an inverted range or window can be stored.
   */
  datatype Offer = Offer(
    id: OfferId,
    name: string,
    offerType: OfferType,
    rotatingStart: Timestamp,
    rotatingEnd: Timestamp,
    minCreditScore: nat,
    maxCreditScore: nat,
    lender: LenderId)

  /** The offer is in rotation at `now`, both ends included. */
  predicate IsActive(o: Offer, now: Timestamp) {
    o.rotatingStart <= now <= o.rotatingEnd
  }

  /** The score lies in the offer's range, both ends included. */
  predicate AcceptsScore(o: Offer, score: nat) {
    o.minCreditScore <= score <= o.maxCreditScore
  }

  /** The offer table is keyed by id. */
  predicate OfferIdsUnique(offers: seq<Offer>) {
    forall i, j :: 0 <= i < j < |offers| ==> offers[i].id != offers[j].id
  }

  /** In a table keyed by id, two rows are the same row exactly when they carry the same id. */
  lemma OfferIdDetermines(offers: seq<Offer>, o1: Offer, o2: Offer)
    requires OfferIdsUnique(offers) && o1 in offers && o2 in offers
    ensures o1 == o2 <==> o1.id == o2.id
  {
    var i :| 0 <= i < |offers| && offers[i] == o1;
    var j :| 0 <= j < |offers| && offers[j] == o2;
  }

  /** An offer with an inverted score range or rotation window accepts no one, ever. */
  lemma InvertedOfferNeverEligible(o: Offer, score: nat, now: Timestamp)
    requires o.minCreditScore > o.maxCreditScore || o.rotatingStart > o.rotatingEnd
    ensures !(AcceptsScore(o, score) && IsActive(o, now))
  {
  }

  /** Looks an offer up by primary key. */
  function FindOffer(offers: seq<Offer>, id: int): (r: Option<Offer>)
    ensures r.None? <==> forall o :: o in offers ==> o.id != id
    ensures r.Some? ==> r.value in offers && r.value.id == id
  {
    if offers == [] then None
    else if offers[0].id == id then Some(offers[0])
    else FindOffer(offers[1..], id)
  }

  /** With unique ids, the offer found is the only one carrying that id. */
  lemma {:induction false} FindOfferUnique(offers: seq<Offer>, o: Offer)
    requires OfferIdsUnique(offers) && o in offers
    ensures FindOffer(offers, o.id) == Some(o)
  {
    if offers[0] != o {
      assert o in offers[1..];
      assert offers[0].id != o.id by {
        var j :| 0 <= j < |offers| && offers[j] == o;
        assert j != 0;
      }
      FindOfferUnique(offers[1..], o);
    }
  }
}
