/** The authorization store: two tables, written together or not at all. */
module Storage {
  import opened Domain
  import opened Clock
  import opened Journal
  import Text

  /** A digest value. It may hold a whole payload: text cannot tell all real amounts apart. */
  datatype Hash = Hash(payload: PaymentEvent)

  /** A row of the authorizations table; the primary key is the transaction id. */
  datatype AuthorizationRow = AuthorizationRow(requestHash: Hash, event: AuthorizationRequest, response: AuthorizationResponse)

  /** Where the database fails inside a transaction, if it does. */
  datatype Fault = NoFault | AtBegin | AtInsert | AtWatermark | AtCommit

  type Digest = PaymentEvent -> Hash

  /** The request digest tells payloads apart. */
  ghost predicate CollisionFree(digest: Digest) {
    forall e, f | digest(e) == digest(f) :: e == f
  }

  function PayloadHash(e: PaymentEvent): Hash {
    Hash(e)
  }

  /** There are such digests, so a store can be opened. */
  lemma DigestExists()
    ensures CollisionFree(PayloadHash) && exists digest: Digest :: CollisionFree(digest)
  {
    assert CollisionFree(PayloadHash);
  }

  // ----- the tables against the journal, one key at a time -----

  ghost predicate RowAt(rows: map<string, AuthorizationRow>, journal: seq<Entry>, digest: Digest, id: string) {
    match Find(journal, id)
    case None => id !in rows
    case Some(entry) => id in rows && rows[id] == AuthorizationRow(digest(entry.event), entry.event, entry.response)
  }

  ghost predicate RowsMatch(rows: map<string, AuthorizationRow>, journal: seq<Entry>, digest: Digest) {
    forall id {:trigger RowAt(rows, journal, digest, id)} :: RowAt(rows, journal, digest, id)
  }

  /** The stored text is the printed watermark. */
  ghost predicate MarkAt(marks: map<string, string>, journal: seq<Entry>, customer: string) {
    match Watermark(journal, customer)
    case None => customer !in marks
    case Some(mark) => customer in marks && marks[customer] == IsoText(mark)
  }

  ghost predicate MarksMatch(marks: map<string, string>, journal: seq<Entry>) {
    forall c {:trigger MarkAt(marks, journal, c)} :: MarkAt(marks, journal, c)
  }

  /** `INSERT ... ON CONFLICT DO UPDATE ... WHERE excluded > stored`, comparing text. */
  function Upsert(marks: map<string, string>, customer: string, text: string): map<string, string> {
    if customer !in marks || Text.Less(marks[customer], text) then marks[customer := text] else marks
  }

  /** Comparing the texts raises the watermark exactly when the instants would. */
  lemma UpsertRaises(marks: map<string, string>, journal: seq<Entry>, entry: Entry)
    requires MarksMatch(marks, journal)
    ensures MarksMatch(Upsert(marks, entry.event.customerId, IsoText(entry.event.eventTime)), journal + [entry])
  {
    var own := entry.event.customerId;
    forall c
      ensures MarkAt(Upsert(marks, own, IsoText(entry.event.eventTime)), journal + [entry], c)
    {
      assert MarkAt(marks, journal, c);
      JournalGrows(journal, entry, "", c);
      if c == own && Watermark(journal, c).Some? {
        IsoOrder(Watermark(journal, c).value, entry.event.eventTime);
      }
    }
  }

  lemma InsertKeepsRows(rows: map<string, AuthorizationRow>, journal: seq<Entry>, digest: Digest, entry: Entry)
    requires RowsMatch(rows, journal, digest)
    ensures RowsMatch(rows[entry.event.transactionId := AuthorizationRow(digest(entry.event), entry.event, entry.response)],
                      journal + [entry], digest)
  {
    var rows' := rows[entry.event.transactionId := AuthorizationRow(digest(entry.event), entry.event, entry.response)];
    forall id
      ensures RowAt(rows', journal + [entry], digest, id)
    {
      assert RowAt(rows, journal, digest, id);
      JournalGrows(journal, entry, id, "");
    }
  }

  class AuthorizationStore {
    const allowedLateness: int
    const digest: Digest
    var authorizations: map<string, AuthorizationRow>
    var watermarks: map<string, string>

    ghost var journal: seq<Entry>

    ghost predicate Valid()
      reads this
    {
      && CollisionFree(digest) && Keyed(journal)
      && RowsMatch(authorizations, journal, digest) && MarksMatch(watermarks, journal)
    }

    constructor (digest: Digest, allowedLateness: int)
      requires CollisionFree(digest)
      ensures Valid() && journal == [] && this.allowedLateness == allowedLateness
    {
      this.digest, this.allowedLateness := digest, allowedLateness;
      authorizations, watermarks, journal := map[], map[], [];
      new;
      forall id
        ensures RowAt(authorizations, journal, digest, id)
      {
      }
      forall c
        ensures MarkAt(watermarks, journal, c)
      {
      }
    }

    /** The stored response to this very request, or a conflict with another one of its id. */
    method CachedResponse(e: AuthorizationRequest) returns (found: Lookup)
      requires Valid()
      ensures found == LookUp(journal, e)
    {
      assert RowAt(authorizations, journal, digest, e.transactionId);
      if e.transactionId !in authorizations {
        return Unseen;
      }
      var row := authorizations[e.transactionId];
      found := if row.requestHash != digest(e) then Clash else Hit(row.response);
    }

    /** Parses the stored watermark and compares instants. */
    method RejectIfLate(e: AuthorizationRequest) returns (late: bool)
      requires Valid()
      ensures late == Late(journal, allowedLateness, e)
    {
      assert MarkAt(watermarks, journal, e.customerId);
      if e.customerId !in watermarks {
        return false;
      }
      ParsePrinted(Watermark(journal, e.customerId).value);
      var mark := ParseIso(watermarks[e.customerId]);
      late := e.At() < mark.value - allowedLateness;
    }

    /** The two statements of `save`, in place; false when one of them fails half-way. */
    method Write(e: AuthorizationRequest, response: AuthorizationResponse, fault: Fault) returns (done: bool)
      requires Valid()
      modifies `authorizations, `watermarks
      ensures done <==> fault.NoFault? && Find(journal, e.transactionId).None?
      ensures done ==> RowsMatch(authorizations, journal + [Entry(e, response)], digest)
      ensures done ==> MarksMatch(watermarks, journal + [Entry(e, response)])
    {
      assert RowAt(authorizations, journal, digest, e.transactionId);
      if fault.AtBegin? || fault.AtInsert? || e.transactionId in authorizations {
        return false;
      }
      InsertKeepsRows(authorizations, journal, digest, Entry(e, response));
      UpsertRaises(watermarks, journal, Entry(e, response));
      authorizations := authorizations[e.transactionId := AuthorizationRow(digest(e), e, response)];
      if fault.AtWatermark? {
        return false;
      }
      watermarks := Upsert(watermarks, e.customerId, IsoText(e.eventTime));
      done := !fault.AtCommit?;
    }

    /** One transaction: a new entry is committed to both tables, or neither table changes. */
    method Save(e: AuthorizationRequest, response: AuthorizationResponse, fault: Fault) returns (saved: bool)
      requires Valid()
      modifies `authorizations, `watermarks, `journal
      ensures Valid()
      ensures saved <==> fault.NoFault? && Find(old(journal), e.transactionId).None?
      ensures journal == old(journal) + if saved then [Entry(e, response)] else []
      ensures !saved ==> authorizations == old(authorizations) && watermarks == old(watermarks)
    {
      var rowsBefore, marksBefore := authorizations, watermarks;
      saved := Write(e, response, fault);
      if saved {
        JournalGrows(journal, Entry(e, response), "", "");
        journal := journal + [Entry(e, response)];
      } else {
        authorizations, watermarks := rowsBefore, marksBefore;
      }
    }
  }
}
