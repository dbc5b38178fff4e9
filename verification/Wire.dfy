/** The 32-byte codec protocol header in front of every request and response. */
module Wire {
  import opened Options
  import opened Bytes
  import opened CodecStatus

  const MAGIC: u32 := 0x4453_4342
  const VERSION: u16 := 1
  const HEADER_BYTES: nat := 32
  const MAX_PAYLOAD: nat := 8 * 1024 * 1024
  const SLOT_BYTES: nat := HEADER_BYTES + MAX_PAYLOAD
  const RESPONSE_BIT: u16 := 0x8000

  datatype Request = Request(kind: u16, session: u64, payload: seq<byte>, id: u32)

  datatype Response = Response(kind: u16, session: u64, payload: seq<byte>, id: u32, status: i32)

  /** The request id of the k-th call: a 32-bit counter starting at 1 that, unlike
      the transport sequence, does not skip zero. */
  function RequestId(k: nat): u32
  {
    k % 0x1_0000_0000
  }

  /** `kind | 0x8000` on 16 bits. */
  function Marked(kind: u16): u16
  {
    if kind >= RESPONSE_BIT then kind else kind + RESPONSE_BIT
  }

  function Header(kind: u16, session: u64, payloadLength: u32, id: u32, status: u32): (h: seq<byte>)
    ensures |h| == HEADER_BYTES
  {
    PutU32(MAGIC) + PutU16(VERSION) + PutU16(kind) + PutU32(0) + PutU64(session)
    + PutU32(payloadLength) + PutU32(id) + PutU32(status)
  }

  /** What the client leaves in the request slot. */
  function EncodeRequest(r: Request): (bytes: seq<byte>)
    requires |r.payload| <= MAX_PAYLOAD
  {
    Header(r.kind, r.session, |r.payload|, r.id, 0) + r.payload
  }

  /** What the worker leaves in the response slot. */
  function EncodeResponse(kind: u16, session: u64, payload: seq<byte>, id: u32, status: i32): (bytes: seq<byte>)
    requires |payload| <= MAX_PAYLOAD
  {
    Header(Marked(kind), session, |payload|, id, ToWord(status)) + payload
  }

  /** The worker's reading of a request slot: the fields it would echo, and
      whether the request passed its header checks. */
  datatype Decoded =
    | Truncated
    | Invalid(request: Request, status: i32)
    | Valid(request: Request)

  function Decode(bytes: seq<byte>): (d: Decoded)
  {
    if |bytes| < HEADER_BYTES then Truncated
    else
      var version := GetU16(bytes, 4);
      var payloadLength := GetU32(bytes, 20);
      var r := Request(GetU16(bytes, 6), GetU64(bytes, 12), bytes[HEADER_BYTES..], GetU32(bytes, 24));
      if || GetU32(bytes, 0) != MAGIC || version != VERSION || r.kind >= RESPONSE_BIT
         || GetU32(bytes, 8) != 0 || GetU32(bytes, 28) != 0 || r.id == 0
         || payloadLength > MAX_PAYLOAD || |bytes| != HEADER_BYTES + payloadLength
      then Invalid(r, if version != VERSION then ERROR_VERSION else ERROR_PROTOCOL)
      else Valid(r)
  }

  /** `parse_response`: None is a protocol failure. */
  function ParseResponse(bytes: seq<byte>, kind: u16, id: u32): (r: Option<Response>)
  {
    if |bytes| < HEADER_BYTES then None
    else if || GetU32(bytes, 0) != MAGIC || GetU16(bytes, 4) != VERSION
            || GetU16(bytes, 6) != Marked(kind)
            || GetU32(bytes, 24) != id || GetU32(bytes, 8) != 0 then None
    else if GetU32(bytes, 20) > MAX_PAYLOAD || |bytes| != HEADER_BYTES + GetU32(bytes, 20) then None
    else Some(Response(GetU16(bytes, 6), GetU64(bytes, 12), bytes[HEADER_BYTES..],
                       GetU32(bytes, 24), FromWord(GetU32(bytes, 28))))
  }

  lemma {:induction false} HeaderFields(kind: u16, session: u64, n: u32, id: u32, status: u32, payload: seq<byte>)
    ensures var b := Header(kind, session, n, id, status) + payload;
            && GetU32(b, 0) == MAGIC && GetU16(b, 4) == VERSION && GetU16(b, 6) == kind
            && GetU32(b, 8) == 0 && GetU64(b, 12) == session && GetU32(b, 20) == n
            && GetU32(b, 24) == id && GetU32(b, 28) == status && b[HEADER_BYTES..] == payload
  {
    var b := Header(kind, session, n, id, status) + payload;
    assert b[0..4] == PutU32(MAGIC);
    GetPutU32(b, 0, MAGIC);
    assert b[4..6] == PutU16(VERSION);
    GetPutU16(b, 4, VERSION);
    assert b[6..8] == PutU16(kind);
    GetPutU16(b, 6, kind);
    assert b[8..12] == PutU32(0);
    GetPutU32(b, 8, 0);
    assert b[12..20] == PutU64(session);
    GetPutU64(b, 12, session);
    assert b[20..24] == PutU32(n);
    GetPutU32(b, 20, n);
    assert b[24..28] == PutU32(id);
    GetPutU32(b, 24, id);
    assert b[28..32] == PutU32(status);
    GetPutU32(b, 28, status);
  }

  /** Bytes are a header and a payload, whatever they are, as soon as magic, version and
      flags are right. */
  lemma {:induction false} HeaderOf(b: seq<byte>)
    requires |b| >= HEADER_BYTES && GetU32(b, 0) == MAGIC && GetU16(b, 4) == VERSION && GetU32(b, 8) == 0
    ensures b == Header(GetU16(b, 6), GetU64(b, 12), GetU32(b, 20), GetU32(b, 24), GetU32(b, 28)) + b[HEADER_BYTES..]
  {
    PutGetU32(b, 0);
    PutGetU16(b, 4);
    PutGetU16(b, 6);
    PutGetU32(b, 8);
    PutGetU64(b, 12);
    PutGetU32(b, 20);
    PutGetU32(b, 24);
    PutGetU32(b, 28);
    assert b == b[0..4] + b[4..6] + b[6..8] + b[8..12] + b[12..20] + b[20..24] + b[24..28] + b[28..32] + b[32..];
  }

  /** The first six bytes on the wire, in network order. */
  lemma HeaderStarts(kind: u16, session: u64, n: u32, id: u32, status: u32)
    ensures Header(kind, session, n, id, status)[..6] == [0x44, 0x53, 0x43, 0x42, 0, 1]
  {
    assert PutU32(MAGIC) + PutU16(VERSION) == [0x44, 0x53, 0x43, 0x42, 0, 1];
  }

  /** The worker accepts nothing but the encodings of requests: every slot content it
      takes for a request is the one byte string that encodes it. */
  lemma OnlyRequestsAreValid(bytes: seq<byte>, r: Request)
    ensures Decode(bytes) == Valid(r) <==>
            |r.payload| <= MAX_PAYLOAD && r.kind < RESPONSE_BIT && r.id != 0 && bytes == EncodeRequest(r)
  {
    if Decode(bytes) == Valid(r) { HeaderOf(bytes); }
    if |r.payload| <= MAX_PAYLOAD { RequestRoundTrip(r); }
  }

  /** What it answers to everything else: the version status exactly when the version word
      is not 1, and otherwise the protocol status; nothing is echoed of a short slot. */
  lemma RefusalStatus(bytes: seq<byte>)
    ensures Decode(bytes) == Truncated <==> |bytes| < 32
    ensures Decode(bytes).Invalid? ==>
              Decode(bytes).status == if bytes[4] == 0 && bytes[5] == 1 then ERROR_PROTOCOL else ERROR_VERSION
  {
  }

  /** Likewise the client: what it takes for a response to this call is the one byte
      string that encodes it. */
  lemma OnlyResponsesParse(bytes: seq<byte>, kind: u16, id: u32, x: Response)
    ensures ParseResponse(bytes, kind, id) == Some(x) <==>
            && |x.payload| <= MAX_PAYLOAD && x.kind == Marked(kind) && x.id == id
            && bytes == EncodeResponse(kind, x.session, x.payload, id, x.status)
  {
    if ParseResponse(bytes, kind, id) == Some(x) { HeaderOf(bytes); }
    if |x.payload| <= MAX_PAYLOAD { ResponseRoundTrip(kind, x.session, x.payload, id, x.status); }
  }

  /** The worker decodes every client request to exactly its fields, and accepts
      it if and only if the type has no response bit and the id is not zero. */
  lemma RequestRoundTrip(r: Request)
    requires |r.payload| <= MAX_PAYLOAD
    ensures |EncodeRequest(r)| <= SLOT_BYTES
    ensures Decode(EncodeRequest(r)) ==
            if r.kind < RESPONSE_BIT && r.id != 0 then Valid(r) else Invalid(r, ERROR_PROTOCOL)
  {
    HeaderFields(r.kind, r.session, |r.payload|, r.id, 0, r.payload);
  }

  /** `parse_response` accepts the worker's reply to its own request and returns
      the same status, negative ones included, session and payload. */
  lemma ResponseRoundTrip(kind: u16, session: u64, payload: seq<byte>, id: u32, status: i32)
    requires |payload| <= MAX_PAYLOAD
    ensures |EncodeResponse(kind, session, payload, id, status)| <= SLOT_BYTES
    ensures ParseResponse(EncodeResponse(kind, session, payload, id, status), kind, id)
            == Some(Response(Marked(kind), session, payload, id, status))
  {
    HeaderFields(Marked(kind), session, |payload|, id, ToWord(status), payload);
  }

  /** A reply to another request is refused: its id or its type differs. */
  lemma ForeignResponseRefused(kind: u16, session: u64, payload: seq<byte>, id: u32, status: i32, asked: u16, askedId: u32)
    requires |payload| <= MAX_PAYLOAD
    requires id != askedId || Marked(kind) != Marked(asked)
    ensures ParseResponse(EncodeResponse(kind, session, payload, id, status), asked, askedId) == None
  {
    HeaderFields(Marked(kind), session, |payload|, id, ToWord(status), payload);
  }

  /** The id counter reaches the value the worker refuses exactly at every
      2^32-th call. */
  lemma RefusedCalls(k: nat, kind: u16, session: u64, payload: seq<byte>)
    requires |payload| <= MAX_PAYLOAD && kind < RESPONSE_BIT
    ensures Decode(EncodeRequest(Request(kind, session, payload, RequestId(k)))).Valid?
            <==> k % 0x1_0000_0000 != 0
  {
    RequestRoundTrip(Request(kind, session, payload, RequestId(k)));
  }
}
