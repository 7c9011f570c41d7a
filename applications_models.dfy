/** Applications: a customer submitted against an offer, with a status; and the table that stores them. */
module ApplicationModels {
  import opened Basics

  datatype Status = New | Sent | Received | Approved | Refused | Funded

  /** The integer stored for a status. */
  function StatusCode(s: Status): (code: nat)
    ensures 1 <= code <= 6
  {
    match s
    case New => 1
    case Sent => 2
    case Received => 3
    case Approved => 4
    case Refused => 5
    case Funded => 6
  }

  /** Reads a stored integer back; only the six declared choices are statuses. */
  function StatusFromCode(code: int): (s: Option<Status>)
    ensures s.Some? <==> 1 <= code <= 6
    ensures s.Some? ==> StatusCode(s.value) == code
  {
    if code == 1 then Some(New)
    else if code == 2 then Some(Sent)
    else if code == 3 then Some(Received)
    else if code == 4 then Some(Approved)
    else if code == 5 then Some(Refused)
    else if code == 6 then Some(Funded)
    else None
  }

  /** Distinct statuses are stored as distinct integers, so storing then reading gives the status back. */
  lemma StatusCodeRoundTrip(s: Status)
    ensures StatusFromCode(StatusCode(s)) == Some(s)
  {
  }

  /** The stored status of a freshly created application: the code of `New`. */
  const DefaultStatus: nat := 1

  /** The largest value the status column holds: it is a 32-bit signed integer column with a non-negative check. */
  const MaxStatusColumn: nat := 2147483647

  lemma DefaultStatusIsNew()
    ensures StatusFromCode(DefaultStatus) == Some(New)
  {
  }

  /**
   * One application; the offer and the customer are referenced by id. The status
   * is the stored non-negative integer: the six `Status` codes are its declared
   * choices, but the update path writes any non-negative integer it is given.
   */
  datatype Application = Application(customer: CustomerId, offer: OfferId, status: nat)

  /** An unsaved application, as built with only its customer and offer given. */
  function NewApplication(customer: CustomerId, offer: OfferId): Application {
    Application(customer, offer, DefaultStatus)
  }

  /** The pair the table keeps unique. */
  function Key(a: Application): (CustomerId, OfferId) {
    (a.customer, a.offer)
  }

  /** At most one application per (offer, customer) pair. */
  predicate UniquePairs(rows: seq<Application>) {
    forall i, j :: 0 <= i < j < |rows| ==> Key(rows[i]) != Key(rows[j])
  }

  /** Two duplicate-free batches whose pairs are disjoint concatenate to a duplicate-free batch. */
  lemma UniquePairsConcat(x: seq<Application>, y: seq<Application>)
    requires UniquePairs(x) && UniquePairs(y)
    requires forall a, b :: a in x && b in y ==> Key(a) != Key(b)
    ensures UniquePairs(x + y)
  {
    var xy := x + y;
    forall i, j | 0 <= i < j < |xy|
      ensures Key(xy[i]) != Key(xy[j])
    {
      if j < |x| {
        assert xy[i] == x[i] && xy[j] == x[j];
      } else if i >= |x| {
        assert xy[i] == y[i - |x|] && xy[j] == y[j - |x|];
      } else {
        assert xy[i] in x && xy[j] in y;
      }
    }
  }

  /** Changing a status keeps every pair, so it keeps the table duplicate-free. */
  lemma {:induction false} UniquePairsStatusUpdate(rows: seq<Application>, pk: nat, s: nat)
    requires pk < |rows| && UniquePairs(rows)
    ensures UniquePairs(rows[pk := rows[pk].(status := s)])
  {
    var rows' := rows[pk := rows[pk].(status := s)];
    forall i, j | 0 <= i < j < |rows'|
      ensures Key(rows'[i]) != Key(rows'[j])
    {
      assert Key(rows'[i]) == Key(rows[i]) && Key(rows'[j]) == Key(rows[j]);
    }
  }

  /**
   * The application table. A row's primary key is its position; rows are never
   * deleted, so a key keeps denoting the same row.
   */
  class ApplicationStore {
    var rows: seq<Application>

    ghost predicate Valid()
      reads this
    {
      UniquePairs(rows)
    }

    constructor ()
      ensures Valid() && rows == []
    {
      rows := [];
    }

    /**
     * Inserts the whole batch, or nothing: a pair that repeats a stored one, or
     * another of the batch, fails the insert with an integrity error.
     */
    method BulkInsert(batch: seq<Application>) returns (ok: bool)
      requires Valid()
      modifies this
      ensures Valid()
      ensures ok <==> UniquePairs(old(rows) + batch)
      ensures rows == if ok then old(rows) + batch else old(rows)
    {
      ok := UniquePairs(rows + batch);
      if ok {
        rows := rows + batch;
      }
    }

    /** Replaces one row's stored status; any value may replace any other. */
    method SetStatus(pk: nat, s: nat)
      requires Valid() && pk < |rows|
      modifies this
      ensures Valid()
      ensures rows == old(rows)[pk := old(rows)[pk].(status := s)]
    {
      UniquePairsStatusUpdate(rows, pk, s);
      rows := rows[pk := rows[pk].(status := s)];
    }
  }
}
