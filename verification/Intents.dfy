/** internal/core/actions.go: write intents, their identity, receipts and load-time validation. */
module Intents {
  import opened Foundations

  type Id = string

  /** Text as JSON decoding yields it: a sequence of Unicode characters. */
  datatype Payload = Payload(name: string, content: string)

  datatype Policy = Policy(endpoint: string, maxAttempts: int)

  /** The digest an operator approves: a digest of exactly these five fields. */
  datatype Fingerprint = Fingerprint(agentId: string, id: Id, operation: string, endpoint: string, payload: Payload)

  datatype Receipt = Receipt(actionId: Id, digest: Fingerprint, recordId: Id, status: string)

  datatype IntentStatus =
    | Proposed | Approved | InFlight | Unknown | RetryRequired | Succeeded | Rejected
    | OtherIntentStatus(text: string)

  datatype Intent = Intent(
    id: Id, operation: string, endpoint: string, payload: Payload, digest: Fingerprint,
    approved: Option<Fingerprint>, status: IntentStatus, attempts: int, checks: int, receipt: Option<Receipt>)

  datatype Command = Propose | Approve | Retry | Reject | OtherCommand(text: string)

  const RECORD_CREATE := "record.create"
  const MAX_ACTIONS := 32
  const MAX_CHECKS := 10

  function FingerprintOf(a: Intent, agentId: string): Fingerprint {
    Fingerprint(agentId, a.id, a.operation, a.endpoint, a.payload)
  }

  predicate ValidReceipt(a: Intent, r: Option<Receipt>) {
    r == Some(Receipt(a.id, a.digest, a.id, "committed"))
  }

  predicate HexDigit(c: char) {
    '0' <= c <= '9' || 'a' <= c <= 'f' || 'A' <= c <= 'F'
  }

  /** Sixteen bytes in hexadecimal. */
  predicate WellFormedId(id: Id) {
    |id| == 32 && forall c <- id :: HexDigit(c)
  }

  predicate ValidPayload(p: Payload) {
    && !Blank(p.name) && ByteLength(p.name) <= 120
    && !Blank(p.content) && ByteLength(p.content) <= 8192
  }

  predicate ValidPolicy(p: Policy) {
    1 <= p.maxAttempts <= 5
  }

  predicate Final(s: IntentStatus) {
    s.Succeeded? || s.Rejected?
  }

  /** What a loaded intent must satisfy on its own. */
  predicate ValidIntent(a: Intent, agentId: string, policy: Policy) {
    && WellFormedId(a.id)
    && a.operation == RECORD_CREATE
    && a.endpoint == policy.endpoint
    && a.digest == FingerprintOf(a, agentId)
    && ValidPayload(a.payload)
    && 0 <= a.attempts <= policy.maxAttempts
    && 0 <= a.checks <= MAX_CHECKS
    && (a.approved.Some? ==> a.approved.value == a.digest)
    && !a.status.OtherIntentStatus?
    && (!a.status.Proposed? && !a.status.Rejected? ==> a.approved == Some(a.digest))
    && (if a.status.Succeeded? then ValidReceipt(a, a.receipt) else a.receipt == None)
  }

  /** A valid intent can be edited in no field that its digest covers, nor may the digest be another; its
      counters stay within the budgets, and approval and receipt are what its status asks for. */
  lemma TamperingShows(a: Intent, agentId: string, policy: Policy)
    requires ValidIntent(a, agentId, policy)
    ensures forall x :: ValidIntent(a.(payload := x), agentId, policy) <==> x == a.payload
    ensures forall x :: ValidIntent(a.(operation := x), agentId, policy) <==> x == a.operation
    ensures forall x :: ValidIntent(a.(endpoint := x), agentId, policy) <==> x == a.endpoint
    ensures forall x :: ValidIntent(a.(id := x), agentId, policy) <==> x == a.id
    ensures forall x :: ValidIntent(a.(digest := x), agentId, policy) <==> x == a.digest
    ensures forall x :: ValidIntent(a, x, policy) <==> x == agentId
    ensures a.operation == "record.create" && a.endpoint == policy.endpoint
    ensures |a.id| == 32 && forall c <- a.id :: c in "0123456789abcdefABCDEF"
    ensures forall x :: ValidIntent(a.(attempts := x), agentId, policy) <==> 0 <= x <= policy.maxAttempts
    ensures forall x :: ValidIntent(a.(checks := x), agentId, policy) <==> 0 <= x <= 10
    ensures forall x ::
              ValidIntent(a.(approved := x), agentId, policy)
              <==> x == Some(a.digest) || (x == None && (a.status.Proposed? || a.status.Rejected?))
    ensures forall x ::
              ValidIntent(a.(receipt := x), agentId, policy)
              <==> x == if a.status.Succeeded? then Some(Receipt(a.id, a.digest, a.id, "committed")) else None
    ensures forall x :: !ValidIntent(a.(status := OtherIntentStatus(x)), agentId, policy)
  {
    hide ValidPayload;
    HexDigits();
    hide WellFormedId, HexDigit;
  }

  lemma HexDigits()
    ensures forall id :: WellFormedId(id) ==> |id| == 32 && forall c <- id :: c in "0123456789abcdefABCDEF"
  {
    var digits := "0123456789abcdefABCDEF";
    forall c | HexDigit(c)
      ensures c in digits
    {
      var x := c as int;
      assert if x <= 57 then digits[x - 48] == c else if x >= 97 then digits[x - 87] == c else digits[x - 49] == c;
    }
  }

  predicate DistinctIds(actions: seq<Intent>) {
    forall i, j :: 0 <= i < j < |actions| ==> actions[i].id != actions[j].id
  }

  /** The queue of a loadable mission: bounded, distinct, each intent valid. */
  predicate ValidActions(actions: seq<Intent>, agentId: string, writes: Option<Policy>) {
    && (writes.Some? ==> ValidPolicy(writes.value))
    && |actions| <= MAX_ACTIONS
    && (actions != [] ==> writes.Some?)
    && DistinctIds(actions)
    && forall i :: 0 <= i < |actions| ==> ValidIntent(actions[i], agentId, writes.value)
  }

  /** What may be added to a valid queue: a valid intent under a new identifier, up to 32. */
  lemma QueueAdmits(actions: seq<Intent>, a: Intent, agentId: string, writes: Option<Policy>)
    requires ValidActions(actions, agentId, writes)
    ensures ValidActions(actions + [a], agentId, writes) <==>
              && |actions| < 32 && writes.Some? && ValidIntent(a, agentId, writes.value)
              && forall k :: 0 <= k < |actions| ==> actions[k].id != a.id
  {
    hide ValidIntent;
    var all := actions + [a];
    assert all[|actions|] == a && forall k :: 0 <= k < |actions| ==> all[k] == actions[k];
  }

  /** The checks on one intent, in the order the loader makes them. */
  method CheckIntent(a: Intent, agentId: string, policy: Policy) returns (ok: bool)
    ensures ok <==> ValidIntent(a, agentId, policy)
  {
    if !WellFormedId(a.id) || a.operation != RECORD_CREATE || a.endpoint != policy.endpoint
       || a.digest != FingerprintOf(a, agentId) || !ValidPayload(a.payload)
       || a.attempts < 0 || a.attempts > policy.maxAttempts || a.checks < 0 || a.checks > MAX_CHECKS {
      return false;
    }
    if a.approved.Some? && a.approved.value != a.digest {
      return false;
    }
    match a.status {
      case Proposed | Rejected =>
      case Approved | InFlight | Unknown | RetryRequired | Succeeded =>
        if a.approved != Some(a.digest) {
          return false;
        }
      case OtherIntentStatus(_) =>
        return false;
    }
    return !(a.status.Succeeded? && !ValidReceipt(a, a.receipt)) && !(!a.status.Succeeded? && a.receipt.Some?);
  }

  /** The loading check: one pass that remembers the identifiers already met. */
  method ValidateActions(actions: seq<Intent>, agentId: string, writes: Option<Policy>) returns (ok: bool)
    ensures ok <==> ValidActions(actions, agentId, writes)
    ensures ok && actions != [] ==> writes.Some?
  {
    if writes.Some? && !ValidPolicy(writes.value) {
      return false;
    }
    if |actions| > MAX_ACTIONS || (|actions| > 0 && writes.None?) {
      return false;
    }
    var seen: map<Id, bool> := map[];
    for i := 0 to |actions|
      invariant forall id :: id in seen <==> exists k :: 0 <= k < i && actions[k].id == id
      invariant forall k, l :: 0 <= k < l < i ==> actions[k].id != actions[l].id
      invariant forall k :: 0 <= k < i ==> ValidIntent(actions[k], agentId, writes.value)
    {
      if actions[i].id in seen {
        return false;
      }
      var sound := CheckIntent(actions[i], agentId, writes.value);
      if !sound {
        return false;
      }
      seen := seen[actions[i].id := true];
    }
    return true;
  }

  /** Position of the first unresolved intent from `i` on, or -1. */
  function NextFrom(actions: seq<Intent>, i: nat): (r: int)
    requires i <= |actions|
    ensures r == -1 || i <= r < |actions|
    ensures r == -1 ==> forall k :: i <= k < |actions| ==> Final(actions[k].status)
    ensures r != -1 ==> !Final(actions[r].status) && forall k :: i <= k < r ==> Final(actions[k].status)
    decreases |actions| - i
  {
    if i == |actions| then -1
    else if !Final(actions[i].status) then i
    else NextFrom(actions, i + 1)
  }

  function NextAction(actions: seq<Intent>): int {
    NextFrom(actions, 0)
  }

  method FindNextAction(actions: seq<Intent>) returns (r: int)
    ensures r == NextAction(actions)
  {
    for i := 0 to |actions|
      invariant NextAction(actions) == NextFrom(actions, i)
    {
      if !actions[i].status.Succeeded? && !actions[i].status.Rejected? {
        return i;
      }
    }
    return -1;
  }

  /** Position of an identifier from `i` on, or -1. */
  function PositionFrom(actions: seq<Intent>, id: Id, i: nat): (r: int)
    requires i <= |actions|
    ensures r == -1 || i <= r < |actions|
    ensures r != -1 ==> actions[r].id == id
    ensures r == -1 ==> forall k :: i <= k < |actions| ==> actions[k].id != id
    decreases |actions| - i
  {
    if i == |actions| then -1
    else if actions[i].id == id then i
    else PositionFrom(actions, id, i + 1)
  }

  function Position(actions: seq<Intent>, id: Id): int {
    PositionFrom(actions, id, 0)
  }

  method FindAction(actions: seq<Intent>, id: Id) returns (r: int)
    ensures r == Position(actions, id)
  {
    for i := 0 to |actions|
      invariant Position(actions, id) == PositionFrom(actions, id, i)
    {
      if actions[i].id == id {
        return i;
      }
    }
    return -1;
  }
}
