/** The JSON-RPC client of the browser sidecar: request ids and matching of responses. */
module BrowserClient {
  import opened Wrappers
  import opened Json
  import opened Text
  import opened BrowserTypes

  /** The client's next id and everything it has sent so far. */
  datatype Wire = Wire(nextId: u64, sent: seq<BrowserRequest>)

  function RequestId(n: u64): string {
    "browser_req_" + Decimal(n)
  }

  /** The request at position `i` was answered by `response`, which carries that request's own id. */
  predicate Accepted(transport: Transport, sent: seq<BrowserRequest>, i: nat, response: BrowserResponse) {
    i < |sent| && transport(i, sent[i]) == Line(response) && response.id == sent[i].id
  }

  /** The request at position `i` was answered successfully with the given result. */
  predicate Succeeded(transport: Transport, sent: seq<BrowserRequest>, i: nat, result: Json) {
    && i < |sent|
    && transport(i, sent[i]).Line?
    && var response := transport(i, sent[i]).response;
       Accepted(transport, sent, i, response) && response.Success? && response.ok && response.result == result
  }

  function IdMismatch(got: string, wanted: string): BrowserAutomationError {
    InvalidResponse("response id mismatch:" + got + " != " + wanted)
  }

  /** One round trip on the wire. */
  function Exchange(transport: Transport, wire: Wire, verb: BrowserMethod, params: Json)
    : (r: (Wire, BrowserResult<BrowserResponse>))
    ensures r.0.sent == wire.sent + [BrowserRequest(RequestId(wire.nextId), verb, params)]
    ensures r.0.nextId == Advance(wire.nextId, 1)
    ensures forall response :: r.1 == Ok(response) <==> Accepted(transport, r.0.sent, |wire.sent|, response)
  {
    var id := RequestId(wire.nextId);
    var request := BrowserRequest(id, verb, params);
    var wire' := Wire(Advance(wire.nextId, 1), wire.sent + [request]);
    match transport(|wire.sent|, request)
    case SendFailed(error) => (wire', Err(error))
    case Unparsable(message) => (wire', Err(InvalidResponse(message)))
    case Line(response) =>
      (wire', if response.id == id then Ok(response) else Err(IdMismatch(response.id, id)))
  }

  /** A round trip whose answer must be a success. */
  function Invoke(transport: Transport, wire: Wire, verb: BrowserMethod, params: Json): (r: (Wire, BrowserResult<Json>))
    ensures r.0 == Exchange(transport, wire, verb, params).0
    ensures forall result :: r.1 == Ok(result) <==> Succeeded(transport, r.0.sent, |wire.sent|, result)
  {
    var (wire', response) := Exchange(transport, wire, verb, params);
    match response
    case Err(error) => (wire', Err(error))
    case Ok(response) => (wire', ResultOf(response))
  }

  // --- request ids ---

  /** The counter after `steps` increments, in 64-bit arithmetic. */
  function Advance(first: u64, steps: nat): u64 {
    (first + steps) % U64_LIMIT
  }

  lemma {:induction false} AdvanceTwice(first: u64, a: nat, b: nat)
    ensures Advance(Advance(first, a), b) == Advance(first, a + b)
  {
  }

  /** Fewer than 2^64 steps apart, counter values differ; 2^64 steps apart they coincide. */
  lemma {:induction false} AdvanceInjective(first: u64, a: nat, b: nat)
    requires a < b
    ensures b - a < U64_LIMIT ==> Advance(first, a) != Advance(first, b)
    ensures b - a == U64_LIMIT ==> Advance(first, a) == Advance(first, b)
  {
  }

  /** An id is the prefix and the digits of the number, without leading zeros. */
  lemma {:induction false} RequestIdSays(n: u64)
    ensures RequestId(n)[..12] == "browser_req_" && ReadDecimal(RequestId(n)[12..]) == Some(n)
    ensures n > 0 ==> RequestId(n)[12] != '0'
  {
    var prefix := "browser_req_";
    assert RequestId(n)[..|prefix|] == prefix && RequestId(n)[|prefix|..] == Decimal(n);
    DecimalReadsBack(n);
  }

  /** From position `base` on, the ids are the consecutive counter values after `first`. */
  ghost predicate ConsecutiveIds(sent: seq<BrowserRequest>, base: nat, first: u64) {
    base <= |sent| && forall i :: base <= i < |sent| ==> sent[i].id == RequestId(Advance(first, i - base))
  }

  ghost predicate DistinctIds(sent: seq<BrowserRequest>, base: nat) {
    forall i, j :: base <= i < j < |sent| ==> sent[i].id != sent[j].id
  }

  lemma {:induction false} RequestIdInjective(m: u64, n: u64)
    requires RequestId(m) == RequestId(n)
    ensures m == n
  {
    var prefix := "browser_req_";
    assert Decimal(m) == RequestId(m)[|prefix|..];
    assert Decimal(n) == RequestId(n)[|prefix|..];
    DecimalInjective(m, n);
  }

  /** Printed ids repeat only once the 64-bit counter has come full circle. */
  lemma {:induction false} IdsDistinctUntilWrap(sent: seq<BrowserRequest>, base: nat, first: u64)
    requires ConsecutiveIds(sent, base, first)
    ensures DistinctIds(sent, base) <==> |sent| - base <= 0x1_0000_0000_0000_0000
  {
    if |sent| - base <= U64_LIMIT {
      forall i, j | base <= i < j < |sent| ensures sent[i].id != sent[j].id {
        AdvanceInjective(first, i - base, j - base);
        if sent[i].id == sent[j].id {
          RequestIdInjective(Advance(first, i - base), Advance(first, j - base));
        }
      }
    } else {
      AdvanceInjective(first, 0, U64_LIMIT);
      assert sent[base].id == sent[base + U64_LIMIT].id;
    }
  }

  class TransportChannel {
    const answer: Transport
    var sent: seq<BrowserRequest>

    constructor (answer: Transport)
      ensures this.answer == answer && sent == []
    {
      this.answer := answer;
      sent := [];
    }

    method Send(request: BrowserRequest) returns (reply: Reply)
      modifies this`sent
      ensures sent == old(sent) + [request]
      ensures reply == answer(|old(sent)|, request)
    {
      reply := answer(|sent|, request);
      sent := sent + [request];
    }
  }

  class BrowserAutomationClient {
    const transport: TransportChannel
    var nextId: u64

    constructor (transport: TransportChannel)
      ensures this.transport == transport && nextId == 1
    {
      this.transport := transport;
      nextId := 1;
    }

    function CurrentWire(): Wire
      reads this, transport
    {
      Wire(nextId, transport.sent)
    }

    method CallResponse(verb: BrowserMethod, params: Json) returns (r: BrowserResult<BrowserResponse>)
      modifies this`nextId, transport`sent
      ensures (CurrentWire(), r) == Exchange(transport.answer, old(CurrentWire()), verb, params)
    {
      var id := RequestId(nextId);
      nextId := Advance(nextId, 1);
      var request := BrowserRequest(id, verb, params);
      var reply := transport.Send(request);
      match reply
      case SendFailed(error) => return Err(error);
      case Unparsable(message) => return Err(InvalidResponse(message));
      case Line(response) =>
        if response.id != id {
          return Err(IdMismatch(response.id, id));
        }
        return Ok(response);
    }

    method Call(verb: BrowserMethod, params: Json) returns (r: BrowserResult<Json>)
      modifies this`nextId, transport`sent
      ensures (CurrentWire(), r) == Invoke(transport.answer, old(CurrentWire()), verb, params)
    {
      var response := CallResponse(verb, params);
      match response
      case Err(error) => return Err(error);
      case Ok(response) => return ResultOf(response);
    }
  }
}
