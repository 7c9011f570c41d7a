/** The offer endpoints: the list of offers in rotation, for partners; one offer by id. */
module LenderViews {
  import opened Basics
  import opened LenderModels

  /** The offers in rotation at `now`, in table order. */
  function ActiveOffers(offers: seq<Offer>, now: Timestamp): (r: seq<Offer>)
    ensures forall o :: o in r <==> o in offers && IsActive(o, now)
  {
    if offers == [] then []
    else
      var rest := ActiveOffers(offers[1..], now);
      assert offers == [offers[0]] + offers[1..];
      if IsActive(offers[0], now) then [offers[0]] + rest else rest
  }

  /** `lender`'s offers, in table order. */
  function OffersOf(offers: seq<Offer>, lender: LenderId): (r: seq<Offer>)
    ensures forall o :: o in r <==> o in offers && o.lender == lender
    ensures OfferIdsUnique(offers) ==> OfferIdsUnique(r)
  {
    if offers == [] then []
    else
      var rest := OffersOf(offers[1..], lender);
      assert offers == [offers[0]] + offers[1..];
      if offers[0].lender == lender then
        assert OfferIdsUnique(offers) ==> forall o :: o in rest ==> o.id != offers[0].id by {
          if OfferIdsUnique(offers) {
            forall o | o in rest ensures o.id != offers[0].id {
              var k :| 0 <= k < |offers[1..]| && offers[1..][k] == o;
              assert offers[k + 1] == o;
            }
          }
        }
        [offers[0]] + rest
      else rest
  }

  /**
   * The offer list. Only partners get in, whatever the method; then only reading
   * is allowed, and every offer in rotation at `now` is listed, of any lender.
   */
  function OffersList(actor: Actor, verb: HttpMethod, offers: seq<Offer>, now: Timestamp): (r: Result<seq<Offer>>)
    ensures !IsPartner(actor) ==> r == Err(Forbidden)
    ensures IsPartner(actor) && verb != Get ==> r == Err(MethodNotAllowed)
    ensures r.Ok? <==> IsPartner(actor) && verb == Get
    ensures r.Ok? ==> forall o :: o in r.value <==> o in offers && IsActive(o, now)
  {
    if !IsPartner(actor) then Err(Forbidden)
    else if verb != Get then Err(MethodNotAllowed)
    else Ok(ActiveOffers(offers, now))
  }

  /**
   * One offer by primary key, for any signed-in user: a lender is limited to
   * its own offers; anyone else may see any offer, in rotation or not.
   */
  function OfferDetail(actor: Actor, verb: HttpMethod, offers: seq<Offer>, pk: int): (r: Result<Offer>)
    ensures verb != Get ==> r == Err(MethodNotAllowed)
    ensures r.Ok? ==> r.value in offers && r.value.id == pk
    ensures r.Ok? && IsLender(actor) ==> r.value.lender == actor.lender.value
    ensures r.Err? && verb == Get ==> r.failure == NotFound
  {
    if verb != Get then Err(MethodNotAllowed)
    else
      var scope := if IsLender(actor) then OffersOf(offers, actor.lender.value) else offers;
      match FindOffer(scope, pk)
      case None => Err(NotFound)
      case Some(o) => Ok(o)
  }

  /** Over a table keyed by id, a user who is not a lender reads every offer, inactive ones included. */
  lemma NonLenderSeesEveryOffer(actor: Actor, offers: seq<Offer>, o: Offer)
    requires !IsLender(actor) && OfferIdsUnique(offers) && o in offers
    ensures OfferDetail(actor, Get, offers, o.id) == Ok(o)
  {
    FindOfferUnique(offers, o);
  }

  /** Over a table keyed by id, a lender reads an offer exactly when it is its own. */
  lemma LenderSeesOnlyOwnOffers(actor: Actor, offers: seq<Offer>, o: Offer)
    requires IsLender(actor) && OfferIdsUnique(offers) && o in offers
    ensures OfferDetail(actor, Get, offers, o.id) == if o.lender == actor.lender.value then Ok(o) else Err(NotFound)
  {
    var own := OffersOf(offers, actor.lender.value);
    if o.lender == actor.lender.value {
      FindOfferUnique(own, o);
    } else {
      forall p | p in own ensures p.id != o.id {
        OfferIdDetermines(offers, o, p);
      }
    }
  }
}
