/** internal/core/write_http.go and examples/write_service.py: the write adapter, and the ledger
    that binds a stable identifier to an immutable record. */
module Destinations {
  import opened Foundations
  import opened Intents
  import opened Sections

  datatype Record = Record(digest: Fingerprint, payload: Payload)

  type Records = map<Id, Record>

  /** Body of a PUT. */
  datatype Envelope = Envelope(actionId: Id, digest: Fingerprint, payload: Payload)

  /** An HTTP answer; the body is absent when there is none or it is not a receipt of legal size. */
  datatype Reply = NoReply | Http(code: int, body: Option<Receipt>)

  datatype Verb = Get | Put

  // ---------------------------------------------------------------- the ledger

  predicate LowerHex(c: char) {
    '0' <= c <= '9' || 'a' <= c <= 'f'
  }

  /** The identifiers that the service routes; `hex.EncodeToString` produces these. */
  predicate RoutedId(id: Id) {
    |id| == 32 && forall c <- id :: LowerHex(c)
  }

  function ReceiptFor(id: Id, digest: Fingerprint): Receipt {
    Receipt(id, digest, id, "committed")
  }

  /** Nothing is left after Python's `str.strip`. It removes what `strings.TrimSpace` removes, and also
      the separators U+001C to U+001F, which the agent takes for content. */
  predicate Stripped(t: string) {
    forall c <- t :: White(c) || 0x1C <= c as int <= 0x1F
  }

  /** The payloads that the service takes. */
  predicate RecordPayload(p: Payload) {
    !Stripped(p.name) && ByteLength(p.name) <= 120 && !Stripped(p.content) && ByteLength(p.content) <= 8192
  }

  /** The service takes no payload that the agent would not propose, but refuses one that it would:
      a separator that white space of any kind surrounds is content for one and nothing for the other. */
  lemma PayloadRulesDiffer()
    ensures forall p :: RecordPayload(p) ==> ValidPayload(p)
    ensures exists p :: ValidPayload(p) && !RecordPayload(p)
  {
    var p := Payload("\U{00A0}\U{001C}", "A");
    assert p.name[1] in p.name && !White(p.name[1]) && p.content[0] in p.content;
    assert p.name[..1][..0] == "" && ByteLength(p.name[..1]) == 2;
    assert p.content[..0] == "";
    assert ValidPayload(p) && Stripped(p.name);
  }

  predicate WellFormedPut(path: Id, e: Envelope) {
    RoutedId(path) && e.actionId == path && RecordPayload(e.payload)
  }

  function GetReply(records: Records, id: Id): Reply {
    if RoutedId(id) && id in records then Http(200, Some(ReceiptFor(id, records[id].digest))) else Http(404, None)
  }

  /** Insert once, replay the same content, refuse any other; `fault` is an error of the database. */
  function PutEffect(records: Records, path: Id, e: Envelope, fault: bool): (Records, Reply) {
    if !RoutedId(path) then (records, Http(404, None))
    else if !WellFormedPut(path, e) then (records, Http(400, None))
    else if fault then (records, Http(503, None))
    else if path in records then
      if records[path] == Record(e.digest, e.payload) then (records, Http(200, Some(ReceiptFor(path, e.digest))))
      else (records, Http(409, None))
    else (records[path := Record(e.digest, e.payload)], Http(201, Some(ReceiptFor(path, e.digest))))
  }

  /** A PUT for every envelope: nothing but its own record can appear, and only if the ledger had none; a
      receipt is answered exactly if the ledger then holds exactly this content under this identifier, and
      other content is refused as a conflict. */
  lemma PutMeaning(records: Records, path: Id, e: Envelope, fault: bool)
    ensures var (after, reply) := PutEffect(records, path, e, fault);
            && reply.Http?
            && (forall id :: id != path ==>
                  (id in after <==> id in records) && (id in records ==> after[id] == records[id]))
            && (path in records ==> path in after && after[path] == records[path])
            && (reply.body.Some? ==>
                  && reply.body.value == ReceiptFor(path, e.digest)
                  && path in after && after[path].digest == e.digest && after[path].payload == e.payload
                  && (reply.code == 200 <==> path in records) && (reply.code == 201 <==> path !in records))
            && (reply.body.None? ==> after == records)
            && (reply.body.Some? <==>
                  && RoutedId(path) && e.actionId == path && RecordPayload(e.payload) && !fault
                  && (path in records ==> records[path].digest == e.digest && records[path].payload == e.payload))
            && (reply.code == 409 <==>
                  && RoutedId(path) && e.actionId == path && RecordPayload(e.payload) && !fault
                  && path in records && (records[path].digest != e.digest || records[path].payload != e.payload))
            && (reply.code == 503 <==> RoutedId(path) && e.actionId == path && RecordPayload(e.payload) && fault)
            && (reply.code == 400 <==> RoutedId(path) && (e.actionId != path || !RecordPayload(e.payload)))
            && (reply.code == 404 <==> !RoutedId(path))
  {
    hide RoutedId, RecordPayload;
  }

  class Ledger {
    var records: Records

    method DoGet(id: Id) returns (reply: Reply)
      ensures reply == GetReply(records, id)
    {
      if !RoutedId(id) {
        return Http(404, None);
      }
      if id in records {
        return Http(200, Some(ReceiptFor(id, records[id].digest)));
      }
      return Http(404, None);
    }

    method DoPut(path: Id, e: Envelope, fault: bool) returns (reply: Reply)
      modifies this
      ensures (records, reply) == PutEffect(old(records), path, e, fault)
    {
      if !RoutedId(path) {
        return Http(404, None);
      }
      if e.actionId != path || !RecordPayload(e.payload) {
        return Http(400, None);
      }
      if fault {
        return Http(503, None);
      }
      var present := path in records;
      if present && records[path] != Record(e.digest, e.payload) {
        return Http(409, None);
      }
      if !present {
        records := records[path := Record(e.digest, e.payload)];
      }
      return Http(if present then 200 else 201, Some(ReceiptFor(path, e.digest)));
    }
  }

  // ---------------------------------------------------------------- the adapter

  const FAILED := RecordOutcome(None, false, true)

  /** What one request to the destination means for the intent `a`. */
  function Classify(verb: Verb, a: Intent, reply: Reply): RecordOutcome {
    match reply
    case NoReply => FAILED
    case Http(code, body) =>
      if verb.Get? && code == 404 then RecordOutcome(None, true, false)
      else if code != 200 && !(verb.Put? && code == 201) then FAILED
      else if ValidReceipt(a, body) then RecordOutcome(body, false, false)
      else FAILED
  }

  /** An answer confirms an intent exactly if it has a success code of its request and a receipt for this
      very intent; it reports an absence exactly if it is the 404 of a GET; anything else is a failure. */
  lemma ClassifyMeaning(verb: Verb, a: Intent, reply: Reply)
    ensures var out := Classify(verb, a, reply);
            && (Confirmed(a, out) <==>
                  && reply.Http? && (reply.code == 200 || (reply.code == 201 && verb.Put?))
                  && reply.body == Some(Receipt(a.id, a.digest, a.id, "committed")))
            && (out.absent <==> reply.Http? && reply.code == 404 && verb.Get?)
            && (out.failed <==> !Confirmed(a, out) && !out.absent)
            && (out.receipt.Some? ==> Confirmed(a, out))
  {
  }

  /** Only a reported absence lets a permitted write through. */
  predicate Clears(a: Intent, allowWrite: bool, reply: Reply) {
    allowWrite && Classify(Get, a, reply).absent
  }

  predicate Confirmed(a: Intent, out: RecordOutcome) {
    !out.failed && ValidReceipt(a, out.receipt)
  }

  function EnvelopeOf(a: Intent): Envelope {
    Envelope(a.id, a.digest, a.payload)
  }

  /** Faults of one exchange: no credential, an answer lost in transit (for a PUT the request or the
      answer), cancellation between the two requests, a database error. */
  datatype Faults = Faults(noToken: bool, getLost: bool, cancelled: bool, putLost: bool, answerLost: bool,
                           database: bool)

  predicate Faultless(f: Faults) {
    !f.noToken && !f.getLost && !f.cancelled && !f.putLost && !f.answerLost && !f.database
  }

  /** `executeRecord` against a ledger: ask first, write only on a reported absence. */
  method ExecuteRecord(ledger: Ledger, a: Intent, allowWrite: bool, f: Faults) returns (out: RecordOutcome)
    modifies ledger
    // at most this one record appears, and only when it was permitted and absent
    ensures ledger.records == old(ledger.records)
            || (allowWrite && a.id !in old(ledger.records)
                && ledger.records == old(ledger.records)[a.id := Record(a.digest, a.payload)])
    // a confirmation is a receipt for this very intent, backed by the ledger
    ensures out.receipt.Some? ==> Confirmed(a, out) && !out.absent
    ensures Confirmed(a, out) ==> a.id in ledger.records && ledger.records[a.id].digest == a.digest
    // an absence is true of a routed identifier, and nothing was sent
    ensures out.absent ==> !allowWrite && !out.failed && ledger.records == old(ledger.records)
    ensures out.absent && RoutedId(a.id) ==> a.id !in ledger.records
    // without faults a permitted write is confirmed exactly if the record is there already or the
    // service takes its payload
    ensures Faultless(f) && allowWrite && RoutedId(a.id)
            && (a.id in old(ledger.records) ==> old(ledger.records)[a.id] == Record(a.digest, a.payload)) ==>
              (Confirmed(a, out) <==> a.id in old(ledger.records) || RecordPayload(a.payload))
    // a look that is answered says whether the record is there
    ensures !f.noToken && !f.getLost && !allowWrite && RoutedId(a.id)
            && (a.id in old(ledger.records) ==> old(ledger.records)[a.id].digest == a.digest) ==>
              && (Confirmed(a, out) <==> a.id in ledger.records)
              && (out.absent && !out.failed <==> a.id !in ledger.records)
    // and without credential, or without an answer to the question, it fails
    ensures f.noToken || f.getLost ==> out == FAILED && ledger.records == old(ledger.records)
  {
    if f.noToken {
      return FAILED;
    }
    var reply := ledger.DoGet(a.id);
    out := Classify(Get, a, if f.getLost then NoReply else reply);
    if out.failed || !out.absent || !allowWrite {
      return;
    }
    if f.cancelled || f.putLost {
      return FAILED;
    }
    reply := ledger.DoPut(a.id, EnvelopeOf(a), f.database);
    out := Classify(Put, a, if f.answerLost then NoReply else reply);
  }
}
