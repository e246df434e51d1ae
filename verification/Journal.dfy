/** The authorization journal as the sequence of its commits: what the two tables mean. */
module Journal {
  import opened Domain
  import opened Clock
  import opened ReplaySpec

  /** A public request: ground-truth labels are forbidden. */
  type AuthorizationRequest = e: PaymentEvent | e.isFraud == None && e.fraudPattern == None
    witness PaymentEvent("", "", 86_400_000_000, "", "", "", 1.0, "", "", "", "", "", ChipPin, true, 0.0, 0.0, None, None)

  /** A response. Reason codes and the explanation are computed from `basis`, what the models saw. */
  datatype AuthorizationResponse = AuthorizationResponse(
    decision: Decision, riskScore: real, basis: Features, timestamp: Instant, traceId: string, latencyMs: real,
    shadowScore: real, shadowDecision: Decision)

  datatype Entry = Entry(event: AuthorizationRequest, response: AuthorizationResponse)

  /** The committed entry with this transaction id. */
  function Find(journal: seq<Entry>, id: string): (found: Option<Entry>)
    ensures found.Some? ==> found.value in journal && found.value.event.transactionId == id
  {
    if journal == [] then None
    else if journal[|journal| - 1].event.transactionId == id then Some(journal[|journal| - 1])
    else Find(journal[..|journal| - 1], id)
  }

  /** Transaction ids are a primary key. */
  predicate Keyed(journal: seq<Entry>) {
    journal == [] || (Keyed(journal[..|journal| - 1])
                      && Find(journal[..|journal| - 1], journal[|journal| - 1].event.transactionId) == None)
  }

  /** The latest event time committed for a customer: replaced only by a later one. */
  function Watermark(journal: seq<Entry>, customer: string): Option<Instant> {
    if journal == [] then None else
      Raise(Watermark(journal[..|journal| - 1], customer), journal[|journal| - 1].event, customer)
  }

  function Raise(mark: Option<Instant>, e: PaymentEvent, customer: string): Option<Instant> {
    if e.customerId == customer && (mark.Some? ==> mark.value < e.At()) then Some(e.eventTime) else mark
  }

  predicate Late(journal: seq<Entry>, allowedLateness: int, e: PaymentEvent) {
    var mark := Watermark(journal, e.customerId);
    mark.Some? && e.At() < mark.value - allowedLateness
  }

  /** How a lookup by transaction id comes out. */
  datatype Lookup = Unseen | Hit(response: AuthorizationResponse) | Clash

  function LookUp(journal: seq<Entry>, e: PaymentEvent): Lookup {
    match Find(journal, e.transactionId)
    case None => Unseen
    case Some(entry) => if entry.event == e then Hit(entry.response) else Clash
  }

  // ----- laws -----

  lemma {:induction false} JournalGrows(journal: seq<Entry>, entry: Entry, id: string, customer: string)
    ensures Find(journal + [entry], id) == if entry.event.transactionId == id then Some(entry) else Find(journal, id)
    ensures Watermark(journal + [entry], customer) == Raise(Watermark(journal, customer), entry.event, customer)
    ensures Keyed(journal + [entry]) <==> Keyed(journal) && Find(journal, entry.event.transactionId) == None
  {
    assert (journal + [entry])[..|journal|] == journal;
  }

  /** The watermark is the maximum committed event time of the customer, and absent exactly when
      nothing was committed for them. */
  lemma {:induction false} WatermarkIsMax(journal: seq<Entry>, customer: string)
    ensures Watermark(journal, customer).None? ==> forall entry | entry in journal :: entry.event.customerId != customer
    ensures Watermark(journal, customer).Some? ==>
      var mark := Watermark(journal, customer).value;
      && (exists entry | entry in journal :: entry.event.customerId == customer && entry.event.eventTime == mark)
      && (forall entry | entry in journal && entry.event.customerId == customer :: entry.event.At() <= mark)
  {
    if journal != [] {
      var before, last := journal[..|journal| - 1], journal[|journal| - 1];
      WatermarkIsMax(before, customer);
      assert forall entry :: entry in journal <==> entry in before || entry == last;
    }
  }

  /** Committing never lowers a watermark. */
  lemma {:induction false} WatermarkNeverFalls(journal: seq<Entry>, more: seq<Entry>, customer: string)
    requires Watermark(journal, customer).Some?
    ensures Watermark(journal + more, customer).Some?
    ensures Watermark(journal, customer).value <= Watermark(journal + more, customer).value
  {
    if more == [] {
      assert journal + more == journal;
    } else {
      WatermarkNeverFalls(journal, more[..|more| - 1], customer);
      assert (journal + more)[..|journal + more| - 1] == journal + more[..|more| - 1];
    }
  }

  /** What is committed stays found. */
  lemma {:induction false} FoundForever(journal: seq<Entry>, more: seq<Entry>, id: string)
    requires Keyed(journal + more) && Find(journal, id).Some?
    ensures Find(journal + more, id) == Find(journal, id)
  {
    if more == [] {
      assert journal + more == journal;
    } else {
      var whole := journal + more;
      assert whole[..|whole| - 1] == journal + more[..|more| - 1];
      FoundForever(journal, more[..|more| - 1], id);
    }
  }
}
