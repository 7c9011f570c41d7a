/** Shared vocabulary: identifiers, the requesting user, and the outcomes of a request. */
module Basics {

  datatype Option<+T> = None | Some(value: T)

  /** An abstract instant; only its order matters. */
  type Timestamp = int

  type CustomerId = nat
  type OfferId = nat
  type LenderId = nat
  type PartnerId = nat

  /**
   * The requesting user: the partner and lender profiles attached to the account,
   * and membership of the "partners" and "lenders" groups.
   */
  datatype Actor = Actor(
    partner: Option<PartnerId>,
    lender: Option<LenderId>,
    inPartnersGroup: bool,
    inLendersGroup: bool)

  /** A partner is a member of the partners group that has a partner profile. */
  predicate IsPartner(a: Actor) {
    a.inPartnersGroup && a.partner.Some?
  }

  /** A lender is a member of the lenders group that has a lender profile. */
  predicate IsLender(a: Actor) {
    a.inLendersGroup && a.lender.Some?
  }

  datatype HttpMethod = Get | Post | Put | Patch | Delete

  /** Why a request was answered with 400. */
  datatype Reason =
    | CustomerIdRequired
    | CustomerIdNotInteger
    | ManualModeRequired
    | LenderIdRequired
    | LenderIdNotInteger
    | LenderIdNotAll
    | NotAPartner
    | NotOwner
    | NotALender
    | StatusRequired
    | StatusNotInteger

  datatype Failure =
    | NotFound                      // 404
    | Invalid(reasons: seq<Reason>) // 400
    | Forbidden                     // 403
    | MethodNotAllowed              // 405
    | ServerError                   // 500: an exception escaped the handler

  datatype Result<+T> = Ok(value: T) | Err(failure: Failure)
}
