/** The codec client on top of the transport: what a returned call means in terms
    of the worker's dispatcher, and the retry loops for input and end of stream. */
module CodecClient {
  import opened Options
  import opened Bytes
  import opened CodecStatus
  import opened Wire
  import opened CodecSession
  import opened WorkerState
  import Transport
  import TransportRepeats
  import TransportResumes

  // ----------------------------------------------- calls through the transport

  /** The worker process: its state and the platform's answer to each request. */
  datatype Machine = Machine(worker: Worker, platform: nat -> Platform, served: nat)

  function EchoKind(bytes: seq<byte>): u16
  {
    if |bytes| >= 8 then GetU16(bytes, 6) else 0
  }

  function EchoId(bytes: seq<byte>): u32
  {
    if |bytes| >= 28 then GetU32(bytes, 24) else 0
  }

  lemma ReplyFits(w: Worker, bytes: seq<byte>, p: Platform)
    ensures |Dispatch(w, bytes, p).1.payload| <= MAX_PAYLOAD
  {
  }

  /** One turn of the worker's main loop on the request it fetched. */
  function Serve(m: Machine, bytes: seq<byte>): (Machine, seq<byte>)
  {
    var (w, reply) := Dispatch(m.worker, bytes, m.platform(m.served));
    ReplyFits(m.worker, bytes, m.platform(m.served));
    (Machine(w, m.platform, m.served + 1),
     EncodeResponse(EchoKind(bytes), reply.session, reply.payload, EchoId(bytes), reply.status))
  }

  function WorkerProcess(start: u64, platform: nat -> Platform): Transport.Env<Machine>
  {
    Transport.Env(Serve, Machine(Fresh(start), platform, 0))
  }

  lemma ProcessFitsSlot(start: u64, platform: nat -> Platform)
    ensures Transport.FitsSlot(WorkerProcess(start, platform))
  {
    forall m: Machine, bytes
      ensures |Serve(m, bytes).1| <= Transport.SLOT_BYTES
    {
      var reply := Dispatch(m.worker, bytes, m.platform(m.served)).1;
      ReplyFits(m.worker, bytes, m.platform(m.served));
      ResponseRoundTrip(EchoKind(bytes), reply.session, reply.payload, EchoId(bytes), reply.status);
    }
  }

  /** A call as its caller made it. */
  datatype Call = Call(kind: u16, session: u64, payload: seq<byte>)

  /** The bytes `rpc` publishes for the k-th call. */
  function Published(c: Call, k: nat): (r: seq<byte>)
    requires |c.payload| <= MAX_PAYLOAD
  {
    EncodeRequest(Request(c.kind, c.session, c.payload, RequestId(k)))
  }

  ghost predicate Issues(issued: seq<seq<byte>>, calls: seq<Call>)
  {
    && |issued| == |calls|
    && forall i :: 0 <= i < |calls| ==> |calls[i].payload| <= MAX_PAYLOAD && issued[i] == Published(calls[i], i + 1)
  }

  function Arrivals(issued: seq<seq<byte>>, platform: nat -> Platform): (r: seq<Arrival>)
    ensures |r| == |issued|
    ensures forall i :: 0 <= i < |issued| ==> r[i] == Arrival(issued[i], platform(i))
  {
    seq(|issued|, i requires 0 <= i < |issued| => Arrival(issued[i], platform(i)))
  }

  lemma {:induction false} ProcessRuns(start: u64, platform: nat -> Platform, issued: seq<seq<byte>>)
    ensures Transport.StateAfter(WorkerProcess(start, platform), issued)
            == Machine(Run(start, Arrivals(issued, platform)).0, platform, |issued|)
    decreases |issued|
  {
    if issued != [] {
      var before := issued[..|issued| - 1];
      ProcessRuns(start, platform, before);
      var arrivals := Arrivals(issued, platform);
      assert arrivals[..|arrivals| - 1] == Arrivals(before, platform);
    }
  }

  lemma EchoesOwnHeader(r: Request)
    requires |r.payload| <= MAX_PAYLOAD
    ensures EchoKind(EncodeRequest(r)) == r.kind && EchoId(EncodeRequest(r)) == r.id
  {
    HeaderFields(r.kind, r.session, |r.payload|, r.id, 0, r.payload);
  }

  /** End to end, in every interleaving without timeouts: the i-th call returns
      what `parse_response` makes of the worker's dispatch of exactly that call,
      after exactly the calls before it: same status, session and payload. */
  lemma {:induction false} CallsReturnTheirDispatch(start: u64, platform: nat -> Platform, steps: seq<Transport.Step>,
                                 calls: seq<Call>, i: nat)
    requires Transport.Legal(WorkerProcess(start, platform), steps) && Transport.TimeOut !in steps
    requires Issues(Transport.After(WorkerProcess(start, platform), steps).issued, calls)
    requires i < |Transport.After(WorkerProcess(start, platform), steps).accepted|
    ensures var s := Transport.After(WorkerProcess(start, platform), steps);
            && i < |calls|
            && var before := Run(start, Arrivals(s.issued[..i], platform)).0;
            var reply := Dispatch(before, Published(calls[i], i + 1), platform(i)).1;
            ParseResponse(Transport.Values(s.accepted[i].cells), calls[i].kind, RequestId(i + 1))
            == Some(Response(Marked(calls[i].kind), reply.session, reply.payload, RequestId(i + 1), reply.status))
  {
    var env := WorkerProcess(start, platform);
    ProcessFitsSlot(start, platform);
    Transport.RefinesSequentialServer(env, steps);
    var s := Transport.After(env, steps);
    var done := s.issued[..i + 1];
    assert done[..|done| - 1] == s.issued[..i];
    assert done[|done| - 1] == Published(calls[i], i + 1);
    ProcessRuns(start, platform, s.issued[..i]);
    var before := Run(start, Arrivals(s.issued[..i], platform)).0;
    var bytes := Published(calls[i], i + 1);
    var reply := Dispatch(before, bytes, platform(i)).1;
    ReplyFits(before, bytes, platform(i));
    EchoesOwnHeader(Request(calls[i].kind, calls[i].session, calls[i].payload, RequestId(i + 1)));
    ResponseRoundTrip(calls[i].kind, reply.session, reply.payload, RequestId(i + 1), reply.status);
  }

  // ------------------------------------------------------ the retry loops

  /** How one `rpc` of a retry loop ends. A lost call may or may not have reached
      the dispatcher. */
  datatype Fate =
    | Delivered(platform: Platform)
    | LostBefore
    | LostAfter(platform: Platform)

  datatype Result = Success | Refused(status: i32) | TransportFailed | TooLong | StillTrying

  /** The history of a session's codec; empty for an unknown session. */
  function Fed(w: Worker, session: u64): seq<Event>
  {
    var i := Find(w.slots, session);
    if session == 0 || i == |w.slots| then [] else w.slots[i].codec.fed
  }

  predicate Transcodes(w: Worker, session: u64)
  {
    var i := Find(w.slots, session);
    session != 0 && i < |w.slots| && w.slots[i].codec.transcoder
  }

  /** Nothing but this session's codec and the request counters changed. */
  ghost predicate OthersKept(w: Worker, t: Worker, session: u64)
  {
    && |t.slots| == |w.slots| && t.nextId == w.nextId && t.issued == w.issued && t.destroyed == w.destroyed
    && Find(t.slots, session) == Find(w.slots, session)
    && Transcodes(t, session) == Transcodes(w, session)
    && forall j :: 0 <= j < |w.slots| && j != Find(w.slots, session) ==> t.slots[j] == w.slots[j]
  }

  lemma FindAfterSet(w: Worker, session: u64, codec: Session)
    requires Find(w.slots, session) < |w.slots|
    ensures Find(SetCodec(w, Find(w.slots, session), codec).slots, session) == Find(w.slots, session)
  {
    var i := Find(w.slots, session);
    var k := Find(SetCodec(w, i, codec).slots, session);
    assert SetCodec(w, i, codec).slots[i].id == session;
  }

  function InputPayload(pts: u64, flags: u32, data: seq<byte>): (r: seq<byte>)
    requires |data| <= MAX_RECORD
    ensures |r| == 16 + |data| <= MAX_PAYLOAD
  {
    PutU64(pts) + PutU32(flags) + PutU32(|data|) + data
  }

  lemma {:induction false} InputFields(pts: u64, flags: u32, data: seq<byte>)
    requires |data| <= MAX_RECORD
    ensures var b := InputPayload(pts, flags, data);
            GetU64(b, 0) == pts && GetU32(b, 8) == flags && GetU32(b, 12) == |data| && b[16..] == data
  {
    var b := InputPayload(pts, flags, data);
    assert b[0..8] == PutU64(pts);
    GetPutU64(b, 0, pts);
    assert b[8..12] == PutU32(flags);
    GetPutU32(b, 8, flags);
    assert b[12..16] == PutU32(|data|);
    GetPutU32(b, 12, |data|);
  }

  predicate SessionKind(kind: u16)
  {
    kind == INPUT || kind == EOS
  }

  lemma {:induction false} OnSessionCounted(w: Worker, requests: u64, kind: u16, session: u64, payload: seq<byte>, p: Platform)
    requires SessionKind(kind)
    ensures var (a, ra) := OnSession(w.(requests := requests), kind, session, payload, p);
            var (b, rb) := OnSession(w, kind, session, payload, p);
            SameTable(a, b) && ra == rb
  {
  }

  /** A client request reaches its session unless its id is the refused zero. */
  lemma {:induction false} DispatchReachesSession(w: Worker, r: Request, p: Platform)
    requires |r.payload| <= MAX_PAYLOAD && SessionKind(r.kind)
    ensures var (t, reply) := Dispatch(w, EncodeRequest(r), p);
            var (u, answer) := OnSession(w, r.kind, r.session, r.payload, p);
            if r.id == 0 then SameTable(t, w) && reply.status == ERROR_PROTOCOL
            else SameTable(t, u) && reply == answer
  {
    RequestRoundTrip(r);
    OnSessionCounted(w, Increment64(w.requests), r.kind, r.session, r.payload, p);
  }

  lemma {:induction false} InputOnSession(w: Worker, session: u64, pts: u64, flags: u32, data: seq<byte>, p: Platform)
    requires |data| <= MAX_RECORD
    ensures var (t, reply) := OnSession(w, INPUT, session, InputPayload(pts, flags, data), p);
            InputEffect(w, t, session, pts, Record(data, pts, flags == FLAG_CODEC_CONFIG), reply.status)
  {
    InputFields(pts, flags, data);
    var i := Find(w.slots, session);
    if session != 0 && i < |w.slots| && OnlyConfigFlag(flags) {
      QueueFeeds(w.slots[i].codec, data, pts, flags, p.codec);
      FindAfterSet(w, session, Queue(w.slots[i].codec, data, pts, flags, p.codec).0);
    }
  }

  lemma {:induction false} EosOnSession(w: Worker, session: u64, pts: u64, p: Platform)
    ensures var (t, reply) := OnSession(w, EOS, session, PutU64(pts), p);
            EosEffect(w, t, session, pts, reply.status)
  {
    GetPutU64(PutU64(pts), 0, pts);
    var i := Find(w.slots, session);
    if session != 0 && i < |w.slots| {
      QueueEosFeeds(w.slots[i].codec, pts, p.codec);
      FindAfterSet(w, session, QueueEos(w.slots[i].codec, pts, p.codec).0);
    }
  }

  /** What the status of one input attempt says about the codec. */
  ghost predicate InputEffect(w: Worker, t: Worker, session: u64, pts: u64, r: Event, status: i32)
  {
    OthersKept(w, t, session)
    && InputFeeds(Fed(w, session), Fed(t, session), status, Transcodes(w, session), pts, r)
  }

  ghost predicate EosEffect(w: Worker, t: Worker, session: u64, pts: u64, status: i32)
  {
    OthersKept(w, t, session) && EosFeeds(Fed(w, session), Fed(t, session), status, Transcodes(w, session), pts)
  }

  lemma SameTableEffect(w: Worker, u: Worker, t: Worker, session: u64)
    requires SameTable(u, t)
    ensures Fed(u, session) == Fed(t, session)
    ensures OthersKept(w, u, session) ==> OthersKept(w, t, session)
  {
  }

  /** One delivered INPUT request, from the client's bytes to the codec. */
  lemma {:induction false} InputDispatch(w: Worker, session: u64, id: u32, pts: u64, flags: u32, data: seq<byte>, p: Platform)
    requires |data| <= MAX_RECORD
    ensures var (t, reply) := Dispatch(w, EncodeRequest(Request(INPUT, session, InputPayload(pts, flags, data), id)), p);
            InputEffect(w, t, session, pts, Record(data, pts, flags == FLAG_CODEC_CONFIG), reply.status)
  {
    var r := Request(INPUT, session, InputPayload(pts, flags, data), id);
    var t := Dispatch(w, EncodeRequest(r), p).0;
    DispatchReachesSession(w, r, p);
    InputOnSession(w, session, pts, flags, data, p);
    SameTableEffect(w, if id == 0 then w else OnSession(w, INPUT, session, r.payload, p).0, t, session);
  }

  lemma {:induction false} EosDispatch(w: Worker, session: u64, id: u32, pts: u64, p: Platform)
    ensures var (t, reply) := Dispatch(w, EncodeRequest(Request(EOS, session, PutU64(pts), id)), p);
            EosEffect(w, t, session, pts, reply.status)
  {
    var r := Request(EOS, session, PutU64(pts), id);
    var t := Dispatch(w, EncodeRequest(r), p).0;
    DispatchReachesSession(w, r, p);
    EosOnSession(w, session, pts, p);
    SameTableEffect(w, if id == 0 then w else OnSession(w, EOS, session, r.payload, p).0, t, session);
  }

  /** The id of attempt n. */
  function IdOf(firstId: u32, n: nat): u32
  {
    (firstId + n) % 0x1_0000_0000
  }

  /** Attempt n of a call, given the worker it meets. */
  function AttemptAt(w: Worker, firstId: u32, c: Call, n: nat, p: Platform): (Worker, Reply)
    requires |c.payload| <= MAX_PAYLOAD
  {
    Dispatch(w, EncodeRequest(Request(c.kind, c.session, c.payload, IdOf(firstId, n))), p)
  }

  /** `ws` is the worker before each of the first n attempts and after them, all delivered
      and all answered AGAIN. */
  ghost predicate OnlyAgain(ws: seq<Worker>, firstId: u32, c: Call, fates: seq<Fate>, n: nat)
    requires |c.payload| <= MAX_PAYLOAD
  {
    && n <= |fates| && |ws| == n + 1
    && forall i :: 0 <= i < n ==>
         && fates[i].Delivered?
         && AttemptAt(ws[i], firstId, c, i, fates[i].platform).1.status == AGAIN
         && ws[i + 1] == AttemptAt(ws[i], firstId, c, i, fates[i].platform).0
  }

  /** The loop tries again exactly as long as the answer is AGAIN, and then returns what
      the last attempt says: `n` attempts were answered AGAIN before it. */
  ghost predicate LoopResult(ws: seq<Worker>, firstId: u32, c: Call, fates: seq<Fate>, n: nat, t: Worker, result: Result)
    requires |c.payload| <= MAX_PAYLOAD
  {
    && OnlyAgain(ws, firstId, c, fates, n)
    && if n == |fates| then result == StillTrying && t == ws[n]
       else match fates[n]
         case LostBefore => result == TransportFailed && t == ws[n]
         case LostAfter(p) => result == TransportFailed && t == AttemptAt(ws[n], firstId, c, n, p).0
         case Delivered(p) =>
           var (after, reply) := AttemptAt(ws[n], firstId, c, n, p);
           && t == after && reply.status != AGAIN
           && result == if reply.status == OK then Success else Refused(reply.status)
  }

  lemma MoreAgain(ws: seq<Worker>, firstId: u32, c: Call, fates: seq<Fate>, n: nat, next: Worker)
    requires |c.payload| <= MAX_PAYLOAD && OnlyAgain(ws, firstId, c, fates, n) && n < |fates| && fates[n].Delivered?
    requires AttemptAt(ws[n], firstId, c, n, fates[n].platform).1.status == AGAIN
    requires next == AttemptAt(ws[n], firstId, c, n, fates[n].platform).0
    ensures OnlyAgain(ws + [next], firstId, c, fates, n + 1)
  {
    var more := ws + [next];
    forall i | 0 <= i < n + 1
      ensures fates[i].Delivered? && AttemptAt(more[i], firstId, c, i, fates[i].platform).1.status == AGAIN
      ensures more[i + 1] == AttemptAt(more[i], firstId, c, i, fates[i].platform).0
    {
      assert more[i] == ws[i] && (i < n ==> more[i + 1] == ws[i + 1]);
    }
  }

  /** One `rpc` of the loop: the worker after it, and the result if the loop ends here. */
  method Attempt(w: Worker, firstId: u32, c: Call, n: nat, fate: Fate) returns (t: Worker, result: Result)
    requires |c.payload| <= MAX_PAYLOAD
    ensures match fate
            case LostBefore => t == w && result == TransportFailed
            case LostAfter(p) => t == AttemptAt(w, firstId, c, n, p).0 && result == TransportFailed
            case Delivered(p) =>
              var (after, reply) := AttemptAt(w, firstId, c, n, p);
              && t == after
              && result == (if reply.status == AGAIN then StillTrying
                            else if reply.status == OK then Success else Refused(reply.status))
  {
    t := w;
    if fate.LostBefore? { return t, TransportFailed; }
    var request := EncodeRequest(Request(c.kind, c.session, c.payload, IdOf(firstId, n)));
    var dispatched := Dispatch(w, request, fate.platform);
    t := dispatched.0;
    if fate.LostAfter? { return t, TransportFailed; }
    var status := dispatched.1.status;
    result := if status == AGAIN then StillTrying else if status == OK then Success else Refused(status);
  }

  /** The loop of `queue_input` and `queue_eos`. `fates` scripts the calls it makes; running
      out of script means it has not returned yet. */
  method TryUntilTaken(w: Worker, firstId: u32, c: Call, fates: seq<Fate>)
    returns (t: Worker, result: Result, ghost ws: seq<Worker>, ghost tried: nat)
    requires |c.payload| <= MAX_PAYLOAD
    ensures LoopResult(ws, firstId, c, fates, tried, t, result) && ws[0] == w
  {
    t, ws := w, [w];
    var n := 0;
    while n < |fates|
      invariant 0 <= n <= |fates|
      invariant OnlyAgain(ws, firstId, c, fates, n) && ws[n] == t && ws[0] == w
    {
      ghost var before := t;
      t, result := Attempt(t, firstId, c, n, fates[n]);
      if result != StillTrying { return t, result, ws, n; }
      MoreAgain(ws, firstId, c, fates, n, t);
      ws := ws + [t];
      n := n + 1;
    }
    return t, StillTrying, ws, n;
  }

  /** `queue_input`: it tries again exactly as long as the answer is AGAIN, and success
      means the record entered the codec exactly once, over all retries. */
  method QueueInput(w: Worker, firstId: u32, session: u64, pts: u64, flags: u32, data: seq<byte>, fates: seq<Fate>)
    returns (t: Worker, result: Result)
    ensures var before, after, r := Fed(w, session), Fed(t, session), Record(data, pts, flags == FLAG_CODEC_CONFIG);
            && OthersKept(w, t, session)
            && (result == Success ==> after == before + [r])
            && (result == StillTrying || result == TooLong ==> after == before)
            && (result.Refused? ==>
                  after == before || after == before + [Padding(pts)] || (Transcodes(w, session) && after == before + [r]))
            && (result == TransportFailed ==>
                  after == before || after == before + [Padding(pts)] || after == before + [r])
    ensures result == TooLong <==> |data| > MAX_RECORD
    ensures result != TooLong ==> exists ws, n ::
              ws != [] && ws[0] == w
              && LoopResult(ws, firstId, Call(INPUT, session, InputPayload(pts, flags, data)), fates, n, t, result)
  {
    if |data| > MAX_RECORD { return w, TooLong; }
    var c := Call(INPUT, session, InputPayload(pts, flags, data));
    ghost var ws: seq<Worker>, n: nat;
    t, result, ws, n := TryUntilTaken(w, firstId, c, fates);
    InputsTried(ws, firstId, fates, n, t, result, session, pts, flags, data);
  }

  /** `queue_eos`, the same loop for the end of the stream. */
  method QueueEnd(w: Worker, firstId: u32, session: u64, pts: u64, fates: seq<Fate>)
    returns (t: Worker, result: Result)
    ensures var before, after := Fed(w, session), Fed(t, session);
            && OthersKept(w, t, session)
            && (result == Success ==> after == before + [EndOfStream(pts)])
            && (result == StillTrying ==> after == before)
            && (result.Refused? ==> after == before || (Transcodes(w, session) && after == before + [EndOfStream(pts)]))
            && (result == TransportFailed ==> after == before || after == before + [EndOfStream(pts)])
    ensures result != TooLong
    ensures exists ws, n :: ws != [] && ws[0] == w
              && LoopResult(ws, firstId, Call(EOS, session, PutU64(pts)), fates, n, t, result)
  {
    ghost var ws: seq<Worker>, n: nat;
    t, result, ws, n := TryUntilTaken(w, firstId, Call(EOS, session, PutU64(pts)), fates);
    EndsTried(ws, firstId, fates, n, t, result, session, pts);
  }

  /** Nothing but this session's codec changed, and that not in what it was fed. */
  ghost predicate Unmoved(w: Worker, t: Worker, session: u64)
  {
    OthersKept(w, t, session) && Fed(t, session) == Fed(w, session)
  }

  lemma {:induction false} InputsAgain(ws: seq<Worker>, firstId: u32, fates: seq<Fate>, n: nat, k: nat,
                                       session: u64, pts: u64, flags: u32, data: seq<byte>)
    requires |data| <= MAX_RECORD && k <= n
    requires OnlyAgain(ws, firstId, Call(INPUT, session, InputPayload(pts, flags, data)), fates, n)
    ensures Unmoved(ws[0], ws[k], session)
    decreases k
  {
    if k > 0 {
      InputsAgain(ws, firstId, fates, n, k - 1, session, pts, flags, data);
      InputDispatch(ws[k - 1], session, IdOf(firstId, k - 1), pts, flags, data, fates[k - 1].platform);
      KeptTransitive(ws[0], ws[k - 1], ws[k], session);
    }
  }

  lemma InputsTried(ws: seq<Worker>, firstId: u32, fates: seq<Fate>, n: nat, t: Worker, result: Result,
                    session: u64, pts: u64, flags: u32, data: seq<byte>)
    requires |data| <= MAX_RECORD
    requires LoopResult(ws, firstId, Call(INPUT, session, InputPayload(pts, flags, data)), fates, n, t, result)
    ensures result != TooLong && InputOutcome(ws[0], t, result, session, pts, Record(data, pts, flags == FLAG_CODEC_CONFIG))
  {
    InputsAgain(ws, firstId, fates, n, n, session, pts, flags, data);
    if n < |fates| && !fates[n].LostBefore? {
      InputDispatch(ws[n], session, IdOf(firstId, n), pts, flags, data, fates[n].platform);
      KeptTransitive(ws[0], ws[n], t, session);
    }
  }

  ghost predicate InputOutcome(w: Worker, t: Worker, result: Result, session: u64, pts: u64, r: Event)
  {
    var before, after := Fed(w, session), Fed(t, session);
    && OthersKept(w, t, session)
    && (result == Success ==> after == before + [r])
    && (result == StillTrying ==> after == before)
    && (result.Refused? ==>
          after == before || after == before + [Padding(pts)] || (Transcodes(w, session) && after == before + [r]))
    && (result == TransportFailed ==> after == before || after == before + [Padding(pts)] || after == before + [r])
  }

  lemma {:induction false} EndsAgain(ws: seq<Worker>, firstId: u32, fates: seq<Fate>, n: nat, k: nat, session: u64, pts: u64)
    requires k <= n && OnlyAgain(ws, firstId, Call(EOS, session, PutU64(pts)), fates, n)
    ensures Unmoved(ws[0], ws[k], session)
    decreases k
  {
    if k > 0 {
      EndsAgain(ws, firstId, fates, n, k - 1, session, pts);
      EosDispatch(ws[k - 1], session, IdOf(firstId, k - 1), pts, fates[k - 1].platform);
      KeptTransitive(ws[0], ws[k - 1], ws[k], session);
    }
  }

  lemma EndsTried(ws: seq<Worker>, firstId: u32, fates: seq<Fate>, n: nat, t: Worker, result: Result, session: u64, pts: u64)
    requires LoopResult(ws, firstId, Call(EOS, session, PutU64(pts)), fates, n, t, result)
    ensures result != TooLong && EndOutcome(ws[0], t, result, session, pts)
  {
    EndsAgain(ws, firstId, fates, n, n, session, pts);
    if n < |fates| && !fates[n].LostBefore? {
      EosDispatch(ws[n], session, IdOf(firstId, n), pts, fates[n].platform);
      KeptTransitive(ws[0], ws[n], t, session);
    }
  }

  ghost predicate EndOutcome(w: Worker, t: Worker, result: Result, session: u64, pts: u64)
  {
    var before, after := Fed(w, session), Fed(t, session);
    && OthersKept(w, t, session)
    && (result == Success ==> after == before + [EndOfStream(pts)])
    && (result == StillTrying ==> after == before)
    && (result.Refused? ==> after == before || (Transcodes(w, session) && after == before + [EndOfStream(pts)]))
    && (result == TransportFailed ==> after == before || after == before + [EndOfStream(pts)])
  }

  // -------------------------------------------- the retry loops over the transport

  /** Calls from..till carry the same request, and every one but the last got AGAIN: what
      a retry loop does. */
  ghost predicate Retries(calls: seq<Call>, statuses: seq<i32>, from: nat, till: nat, call: Call)
  {
    && from < till <= |statuses| <= |calls|
    && (forall i :: from <= i < till ==> calls[i] == call)
    && (forall i :: from <= i < till - 1 ==> statuses[i] == AGAIN)
  }

  ghost predicate InputAt(ws: seq<Worker>, statuses: seq<i32>, i: nat, session: u64, pts: u64, r: Event)
  {
    i + 1 < |ws| && i < |statuses| && InputEffect(ws[i], ws[i + 1], session, pts, r, statuses[i])
  }

  ghost predicate EosAt(ws: seq<Worker>, statuses: seq<i32>, i: nat, session: u64, pts: u64)
  {
    i + 1 < |ws| && i < |statuses| && EosEffect(ws[i], ws[i + 1], session, pts, statuses[i])
  }

  ghost predicate EachInput(ws: seq<Worker>, statuses: seq<i32>, from: nat, till: nat, session: u64, pts: u64, r: Event)
  {
    && from < till <= |statuses| < |ws|
    && (forall i: nat :: from <= i < till ==> InputAt(ws, statuses, i, session, pts, r))
    && (forall i :: from <= i < till - 1 ==> statuses[i] == AGAIN)
  }

  lemma AgainThenInput(w: Worker, t: Worker, u: Worker, session: u64, pts: u64, r: Event, status: i32)
    requires InputEffect(w, t, session, pts, r, AGAIN) && InputEffect(t, u, session, pts, r, status)
    ensures InputEffect(w, u, session, pts, r, status)
  {
    KeptTransitive(w, t, u, session);
  }

  lemma AgainThenEos(w: Worker, t: Worker, u: Worker, session: u64, pts: u64, status: i32)
    requires EosEffect(w, t, session, pts, AGAIN) && EosEffect(t, u, session, pts, status)
    ensures EosEffect(w, u, session, pts, status)
  {
    KeptTransitive(w, t, u, session);
  }

  /** Attempts answered AGAIN leave nothing, so the last one decides. */
  lemma {:induction false} InputsFold(ws: seq<Worker>, statuses: seq<i32>, from: nat, till: nat, session: u64, pts: u64, r: Event)
    requires from < till && EachInput(ws, statuses, from, till, session, pts, r)
    ensures InputEffect(ws[from], ws[till], session, pts, r, statuses[till - 1])
    decreases till - from
  {
    assert InputAt(ws, statuses, from, session, pts, r);
    if from + 1 < till {
      InputsFold(ws, statuses, from + 1, till, session, pts, r);
      AgainThenInput(ws[from], ws[from + 1], ws[till], session, pts, r, statuses[till - 1]);
    }
  }

  ghost predicate EachEos(ws: seq<Worker>, statuses: seq<i32>, from: nat, till: nat, session: u64, pts: u64)
  {
    && from < till <= |statuses| < |ws|
    && (forall i: nat :: from <= i < till ==> EosAt(ws, statuses, i, session, pts))
    && (forall i :: from <= i < till - 1 ==> statuses[i] == AGAIN)
  }

  lemma {:induction false} EosFold(ws: seq<Worker>, statuses: seq<i32>, from: nat, till: nat, session: u64, pts: u64)
    requires from < till && EachEos(ws, statuses, from, till, session, pts)
    ensures EosEffect(ws[from], ws[till], session, pts, statuses[till - 1])
    decreases till - from
  {
    assert EosAt(ws, statuses, from, session, pts);
    if from + 1 < till {
      EosFold(ws, statuses, from + 1, till, session, pts);
      AgainThenEos(ws[from], ws[from + 1], ws[till], session, pts, statuses[till - 1]);
    }
  }

  lemma KeptTransitive(w: Worker, t: Worker, u: Worker, session: u64)
    requires OthersKept(w, t, session) && OthersKept(t, u, session)
    ensures OthersKept(w, u, session)
  {
  }

  /** The worker before the first request and after each one. */
  ghost predicate Path(start: u64, platform: nat -> Platform, issued: seq<seq<byte>>, ws: seq<Worker>)
  {
    |ws| == |issued| + 1 && forall i :: 0 <= i < |ws| ==> ws[i] == Run(start, Arrivals(issued[..i], platform)).0
  }

  lemma PathStep(start: u64, platform: nat -> Platform, issued: seq<seq<byte>>, ws: seq<Worker>, k: nat)
    requires Path(start, platform, issued, ws) && k < |issued|
    ensures ws[k + 1] == Dispatch(ws[k], issued[k], platform(k)).0
  {
    var more := Arrivals(issued[..k + 1], platform);
    assert more[..k] == Arrivals(issued[..k], platform);
  }

  /** A run without timeouts, the calls it made, the statuses `parse_response` gave to
      those that returned, and the worker between the calls. */
  ghost predicate Observed(start: u64, platform: nat -> Platform, steps: seq<Transport.Step>,
                           calls: seq<Call>, statuses: seq<i32>, ws: seq<Worker>)
  {
    && Transport.Legal(WorkerProcess(start, platform), steps) && Transport.TimeOut !in steps
    && var s := Transport.After(WorkerProcess(start, platform), steps);
       && Issues(s.issued, calls) && Path(start, platform, s.issued, ws) && |statuses| == |s.accepted| <= |calls|
       && forall i :: 0 <= i < |statuses| ==>
            StatusOf(ParseResponse(Transport.Values(s.accepted[i].cells), calls[i].kind, RequestId(i + 1))) == Some(statuses[i])
  }

  function StatusOf(r: Option<Response>): Option<i32>
  {
    if r.None? then None else Some(r.value.status)
  }

  /** Call i of an observed run: one dispatch, whose status it returned. */
  lemma OneDispatch(start: u64, platform: nat -> Platform, steps: seq<Transport.Step>,
                    calls: seq<Call>, statuses: seq<i32>, ws: seq<Worker>, i: nat)
    requires Observed(start, platform, steps, calls, statuses, ws) && i < |statuses|
    ensures i + 1 < |ws| && i < |calls| && |calls[i].payload| <= MAX_PAYLOAD
    ensures ws[i + 1] == Dispatch(ws[i], Published(calls[i], i + 1), platform(i)).0
    ensures statuses[i] == Dispatch(ws[i], Published(calls[i], i + 1), platform(i)).1.status
  {
    CallsReturnTheirDispatch(start, platform, steps, calls, i);
    PathStep(start, platform, Transport.After(WorkerProcess(start, platform), steps).issued, ws, i);
  }

  lemma InputAttempt(w: Worker, t: Worker, status: i32, k: nat, session: u64, pts: u64, flags: u32, data: seq<byte>, p: Platform)
    requires |data| <= MAX_RECORD
    requires t == Dispatch(w, Published(Call(INPUT, session, InputPayload(pts, flags, data)), k), p).0
    requires status == Dispatch(w, Published(Call(INPUT, session, InputPayload(pts, flags, data)), k), p).1.status
    ensures InputEffect(w, t, session, pts, Record(data, pts, flags == FLAG_CODEC_CONFIG), status)
  {
    InputDispatch(w, session, RequestId(k), pts, flags, data, p);
  }

  lemma EosAttempt(w: Worker, t: Worker, status: i32, k: nat, session: u64, pts: u64, p: Platform)
    requires t == Dispatch(w, Published(Call(EOS, session, PutU64(pts)), k), p).0
    requires status == Dispatch(w, Published(Call(EOS, session, PutU64(pts)), k), p).1.status
    ensures EosEffect(w, t, session, pts, status)
  {
    EosDispatch(w, session, RequestId(k), pts, p);
  }

  /** `queue_input` end to end, over every run without timeouts: however often the worker
      answered AGAIN, the last answer tells what entered the codec over all the retries,
      on success the record exactly once. */
  lemma InputRetries(start: u64, platform: nat -> Platform, steps: seq<Transport.Step>, calls: seq<Call>, statuses: seq<i32>,
                     ws: seq<Worker>, from: nat, till: nat, session: u64, pts: u64, flags: u32, data: seq<byte>)
    requires |data| <= MAX_RECORD && Observed(start, platform, steps, calls, statuses, ws)
    requires Retries(calls, statuses, from, till, Call(INPUT, session, InputPayload(pts, flags, data)))
    ensures till < |ws|
    ensures InputEffect(ws[from], ws[till], session, pts, Record(data, pts, flags == FLAG_CODEC_CONFIG), statuses[till - 1])
  {
    var r := Record(data, pts, flags == FLAG_CODEC_CONFIG);
    forall i: nat | from <= i < till ensures InputAt(ws, statuses, i, session, pts, r) {
      OneDispatch(start, platform, steps, calls, statuses, ws, i);
      InputAttempt(ws[i], ws[i + 1], statuses[i], i + 1, session, pts, flags, data, platform(i));
    }
    OneDispatch(start, platform, steps, calls, statuses, ws, |statuses| - 1);
    InputsFold(ws, statuses, from, till, session, pts, r);
  }

  /** `queue_eos` likewise. */
  lemma EosRetries(start: u64, platform: nat -> Platform, steps: seq<Transport.Step>, calls: seq<Call>, statuses: seq<i32>,
                   ws: seq<Worker>, from: nat, till: nat, session: u64, pts: u64)
    requires Observed(start, platform, steps, calls, statuses, ws)
    requires Retries(calls, statuses, from, till, Call(EOS, session, PutU64(pts)))
    ensures till < |ws|
    ensures EosEffect(ws[from], ws[till], session, pts, statuses[till - 1])
  {
    forall i: nat | from <= i < till ensures EosAt(ws, statuses, i, session, pts) {
      OneDispatch(start, platform, steps, calls, statuses, ws, i);
      EosAttempt(ws[i], ws[i + 1], statuses[i], i + 1, session, pts, platform(i));
    }
    OneDispatch(start, platform, steps, calls, statuses, ws, |statuses| - 1);
    EosFold(ws, statuses, from, till, session, pts);
  }

  // -------------------------------------------- the retry loops after timeouts

  /** One turn of the worker on a client's call: a dispatch, whose status the caller
      reads from the reply. */
  lemma ServeCall(m: Machine, c: Call, k: nat)
    requires |c.payload| <= MAX_PAYLOAD
    ensures Serve(m, Published(c, k)).0.worker == Dispatch(m.worker, Published(c, k), m.platform(m.served)).0
    ensures StatusOf(ParseResponse(Serve(m, Published(c, k)).1, c.kind, RequestId(k))) ==
            Some(Dispatch(m.worker, Published(c, k), m.platform(m.served)).1.status)
  {
    var bytes := Published(c, k);
    var reply := Dispatch(m.worker, bytes, m.platform(m.served)).1;
    ReplyFits(m.worker, bytes, m.platform(m.served));
    EchoesOwnHeader(Request(c.kind, c.session, c.payload, RequestId(k)));
    ResponseRoundTrip(c.kind, reply.session, reply.payload, RequestId(k), reply.status);
  }

  /** A state after any run, abandoned calls included, and a continuation from it in which
      every call returned: with its calls, their statuses, and the worker between them. */
  ghost predicate Resumes(start: u64, platform: nat -> Platform, o: Transport.State<Machine>, steps: seq<Transport.Step>)
  {
    var env := WorkerProcess(start, platform);
    && TransportRepeats.Reachable(env, o) && TransportResumes.Rested(o)
    && TransportRepeats.LegalFrom(env, o, steps) && Transport.TimeOut !in steps
    && TransportRepeats.AfterFrom(env, o, steps).refused == o.refused
    && TransportRepeats.AfterFrom(env, o, steps).Calls() <= Transport.SEQUENCES
  }

  ghost predicate CallsSince(o: Transport.State<Machine>, t: Transport.State<Machine>, calls: seq<Call>, statuses: seq<i32>)
  {
    && |t.issued| == o.Calls() + |calls| && |t.accepted| == |o.accepted| + |statuses| && |statuses| <= |calls|
    && (forall i :: 0 <= i < |calls| ==> IssuedAs(t.issued[o.Calls() + i], calls[i], o.Calls() + i + 1))
    && (forall i :: 0 <= i < |statuses| ==>
          ReturnedAs(t.accepted[|o.accepted| + i], calls[i], o.Calls() + i + 1, statuses[i]))
  }

  predicate IssuedAs(bytes: seq<byte>, c: Call, k: nat)
  {
    |c.payload| <= MAX_PAYLOAD && bytes == Published(c, k)
  }

  ghost predicate ReturnedAs(a: Transport.Acceptance, c: Call, k: nat, status: i32)
  {
    StatusOf(ParseResponse(Transport.Values(a.cells), c.kind, RequestId(k))) == Some(status)
  }

  /** The requests the worker dispatched since `o`, and the worker before the first new
      call and after each. */
  ghost predicate WorkersSince(start: u64, platform: nat -> Platform, o: Transport.State<Machine>,
                               t: Transport.State<Machine>, ws: seq<Worker>)
  {
    var stale := TransportResumes.OriginOf(o).first - |o.log|;
    && |o.log| <= |t.log|
    && var requests := TransportResumes.Requests(t.log, |o.log|);
       forall j :: 0 <= j < |ws| ==> WorkerAfter(start, platform, o, requests, stale + j, ws[j])
  }

  ghost predicate WorkerAfter(start: u64, platform: nat -> Platform, o: Transport.State<Machine>,
                              requests: seq<seq<byte>>, k: nat, w: Worker)
  {
    k <= |requests| && w == MachineAt(start, platform, o, requests, k).worker
  }

  /** The worker process after the first k of these requests. */
  ghost function MachineAt(start: u64, platform: nat -> Platform, o: Transport.State<Machine>, requests: seq<seq<byte>>, k: nat): Machine
    requires k <= |requests|
  {
    Transport.StateAfter(TransportResumes.ServerAt(WorkerProcess(start, platform), o), requests[..k])
  }

  lemma NextMachine(start: u64, platform: nat -> Platform, o: Transport.State<Machine>, requests: seq<seq<byte>>, k: nat)
    requires k < |requests|
    ensures MachineAt(start, platform, o, requests, k + 1) == Serve(MachineAt(start, platform, o, requests, k), requests[k]).0
    ensures Transport.ReplyAfter(TransportResumes.ServerAt(WorkerProcess(start, platform), o), requests[..k + 1])
         == Serve(MachineAt(start, platform, o, requests, k), requests[k]).1
  {
    var done := requests[..k + 1];
    assert done[..|done| - 1] == requests[..k] && done[|done| - 1] == requests[k];
  }

  /** One dispatch of this call, and the status it gave. */
  ghost predicate Dispatched(w: Worker, after: Worker, c: Call, k: nat, p: Platform, status: i32)
  {
    |c.payload| <= MAX_PAYLOAD && (after, status) == (Dispatch(w, Published(c, k), p).0, Dispatch(w, Published(c, k), p).1.status)
  }

  /** Request number j since `o` was this call, and its reply carried this status. */
  ghost predicate ServedAt(start: u64, platform: nat -> Platform, o: Transport.State<Machine>, requests: seq<seq<byte>>, j: nat,
                           c: Call, k: nat, w: Worker, after: Worker, status: i32)
  {
    && j < |requests| && IssuedAs(requests[j], c, k)
    && WorkerAfter(start, platform, o, requests, j, w) && WorkerAfter(start, platform, o, requests, j + 1, after)
    && var reply := Transport.ReplyAfter(TransportResumes.ServerAt(WorkerProcess(start, platform), o), requests[..j + 1]);
       StatusOf(ParseResponse(reply, c.kind, RequestId(k))) == Some(status)
  }

  /** Call i since `o`: one dispatch, whose status it returned. */
  lemma OneDispatchAgain(start: u64, platform: nat -> Platform, o: Transport.State<Machine>, t: Transport.State<Machine>,
                         calls: seq<Call>, statuses: seq<i32>, ws: seq<Worker>, i: nat) returns (p: Platform)
    requires TransportResumes.Resumed(WorkerProcess(start, platform), o, t)
    requires CallsSince(o, t, calls, statuses) && WorkersSince(start, platform, o, t, ws)
    requires i < |statuses| && |ws| == |statuses| + 1
    ensures Dispatched(ws[i], ws[i + 1], calls[i], o.Calls() + i + 1, p, statuses[i])
  {
    var requests, k := DispatchOfCall(start, platform, o, t, calls, statuses, ws, i);
    p := DispatchAfter(start, platform, o, requests, k, calls[i], o.Calls() + i + 1, ws[i], ws[i + 1], statuses[i]);
  }

  /** Where the dispatch of call i since `o` is, and the reply it gave. */
  lemma DispatchOfCall(start: u64, platform: nat -> Platform, o: Transport.State<Machine>, t: Transport.State<Machine>,
                       calls: seq<Call>, statuses: seq<i32>, ws: seq<Worker>, i: nat)
    returns (requests: seq<seq<byte>>, k: nat)
    requires TransportResumes.Resumed(WorkerProcess(start, platform), o, t)
    requires CallsSince(o, t, calls, statuses) && WorkersSince(start, platform, o, t, ws)
    requires i < |statuses| && |ws| == |statuses| + 1
    ensures ServedAt(start, platform, o, requests, k, calls[i], o.Calls() + i + 1, ws[i], ws[i + 1], statuses[i])
  {
    TransportResumes.ResumedCall(WorkerProcess(start, platform), o, t, i);
    requests := TransportResumes.Requests(t.log, |o.log|);
    k := TransportResumes.OriginOf(o).first - |o.log| + i;
    assert WorkerAfter(start, platform, o, requests, k, ws[i]);
    assert WorkerAfter(start, platform, o, requests, k + 1, ws[i + 1]);
    assert IssuedAs(t.issued[o.Calls() + i], calls[i], o.Calls() + i + 1);
    assert ReturnedAs(t.accepted[|o.accepted| + i], calls[i], o.Calls() + i + 1, statuses[i]);
  }

  lemma DispatchAfter(start: u64, platform: nat -> Platform, o: Transport.State<Machine>, requests: seq<seq<byte>>, j: nat,
                      c: Call, k: nat, w: Worker, after: Worker, status: i32) returns (p: Platform)
    requires ServedAt(start, platform, o, requests, j, c, k, w, after, status)
    ensures Dispatched(w, after, c, k, p, status)
  {
    var m := MachineAt(start, platform, o, requests, j);
    p := m.platform(m.served);
    NextMachine(start, platform, o, requests, j);
    ServeCall(m, c, k);
  }

  /** `queue_input` after timeouts: from every state whose leftovers cannot serve the first
      new request, over every continuation in which no call times out or is refused: the
      last answer tells what entered the codec over all the retries, on success the record
      exactly once; and the request an abandoned call may still get executed first is not
      the loop's own. */
  lemma InputRetriesAgain(start: u64, platform: nat -> Platform, o: Transport.State<Machine>, steps: seq<Transport.Step>,
                          calls: seq<Call>, statuses: seq<i32>, ws: seq<Worker>, till: nat,
                          session: u64, pts: u64, flags: u32, data: seq<byte>)
    requires |data| <= MAX_RECORD && Resumes(start, platform, o, steps)
    requires CallsSince(o, TransportRepeats.AfterFrom(WorkerProcess(start, platform), o, steps), calls, statuses)
    requires WorkersSince(start, platform, o, TransportRepeats.AfterFrom(WorkerProcess(start, platform), o, steps), ws)
    requires |ws| == |statuses| + 1
    requires Retries(calls, statuses, 0, till, Call(INPUT, session, InputPayload(pts, flags, data)))
    requires !TransportRepeats.MayRepeat(o, Published(calls[0], o.Calls() + 1))
    ensures InputEffect(ws[0], ws[till], session, pts, Record(data, pts, flags == FLAG_CODEC_CONFIG), statuses[till - 1])
    ensures OldRequestIsOther(o, TransportRepeats.AfterFrom(WorkerProcess(start, platform), o, steps), calls[0])
  {
    var t := TransportRepeats.AfterFrom(WorkerProcess(start, platform), o, steps);
    ProcessFitsSlot(start, platform);
    TransportResumes.ResumesSequentialServer(WorkerProcess(start, platform), o, steps);
    InputsSince(start, platform, o, t, calls, statuses, ws, till, session, pts, flags, data);
  }

  /** What an abandoned call may have executed since `o` is not this call's request. */
  ghost predicate OldRequestIsOther(o: Transport.State<Machine>, t: Transport.State<Machine>, c: Call)
    requires |c.payload| <= MAX_PAYLOAD
  {
    forall i :: |o.log| <= i < TransportResumes.OriginOf(o).first && i < |t.log| ==>
      t.log[i].request != Published(c, o.Calls() + 1)
  }

  lemma InputSince(start: u64, platform: nat -> Platform, o: Transport.State<Machine>, t: Transport.State<Machine>,
                   calls: seq<Call>, statuses: seq<i32>, ws: seq<Worker>, i: nat,
                   session: u64, pts: u64, flags: u32, data: seq<byte>)
    requires |data| <= MAX_RECORD && TransportResumes.Resumed(WorkerProcess(start, platform), o, t)
    requires CallsSince(o, t, calls, statuses) && WorkersSince(start, platform, o, t, ws) && |ws| == |statuses| + 1
    requires i < |statuses| && calls[i] == Call(INPUT, session, InputPayload(pts, flags, data))
    ensures InputAt(ws, statuses, i, session, pts, Record(data, pts, flags == FLAG_CODEC_CONFIG))
  {
    var p := OneDispatchAgain(start, platform, o, t, calls, statuses, ws, i);
    InputAttempt(ws[i], ws[i + 1], statuses[i], o.Calls() + i + 1, session, pts, flags, data, p);
  }

  lemma EndSince(start: u64, platform: nat -> Platform, o: Transport.State<Machine>, t: Transport.State<Machine>,
                 calls: seq<Call>, statuses: seq<i32>, ws: seq<Worker>, i: nat, session: u64, pts: u64)
    requires TransportResumes.Resumed(WorkerProcess(start, platform), o, t)
    requires CallsSince(o, t, calls, statuses) && WorkersSince(start, platform, o, t, ws) && |ws| == |statuses| + 1
    requires i < |statuses| && calls[i] == Call(EOS, session, PutU64(pts))
    ensures EosAt(ws, statuses, i, session, pts)
  {
    var p := OneDispatchAgain(start, platform, o, t, calls, statuses, ws, i);
    EosAttempt(ws[i], ws[i + 1], statuses[i], o.Calls() + i + 1, session, pts, p);
  }

  lemma InputsSince(start: u64, platform: nat -> Platform, o: Transport.State<Machine>, t: Transport.State<Machine>,
                    calls: seq<Call>, statuses: seq<i32>, ws: seq<Worker>, till: nat,
                    session: u64, pts: u64, flags: u32, data: seq<byte>)
    requires |data| <= MAX_RECORD && TransportResumes.Resumed(WorkerProcess(start, platform), o, t)
    requires CallsSince(o, t, calls, statuses) && WorkersSince(start, platform, o, t, ws) && |ws| == |statuses| + 1
    requires Retries(calls, statuses, 0, till, Call(INPUT, session, InputPayload(pts, flags, data)))
    ensures InputEffect(ws[0], ws[till], session, pts, Record(data, pts, flags == FLAG_CODEC_CONFIG), statuses[till - 1])
  {
    var r := Record(data, pts, flags == FLAG_CODEC_CONFIG);
    forall i: nat | i < till ensures InputAt(ws, statuses, i, session, pts, r) {
      InputSince(start, platform, o, t, calls, statuses, ws, i, session, pts, flags, data);
    }
    InputsFold(ws, statuses, 0, till, session, pts, r);
  }

  lemma EosSince(start: u64, platform: nat -> Platform, o: Transport.State<Machine>, t: Transport.State<Machine>,
                 calls: seq<Call>, statuses: seq<i32>, ws: seq<Worker>, till: nat, session: u64, pts: u64)
    requires TransportResumes.Resumed(WorkerProcess(start, platform), o, t)
    requires CallsSince(o, t, calls, statuses) && WorkersSince(start, platform, o, t, ws) && |ws| == |statuses| + 1
    requires Retries(calls, statuses, 0, till, Call(EOS, session, PutU64(pts)))
    ensures EosEffect(ws[0], ws[till], session, pts, statuses[till - 1])
  {
    forall i: nat | i < till ensures EosAt(ws, statuses, i, session, pts) {
      EndSince(start, platform, o, t, calls, statuses, ws, i, session, pts);
    }
    EosFold(ws, statuses, 0, till, session, pts);
  }

  /** `queue_eos` after timeouts likewise. */
  lemma EosRetriesAgain(start: u64, platform: nat -> Platform, o: Transport.State<Machine>, steps: seq<Transport.Step>,
                        calls: seq<Call>, statuses: seq<i32>, ws: seq<Worker>, till: nat, session: u64, pts: u64)
    requires Resumes(start, platform, o, steps)
    requires CallsSince(o, TransportRepeats.AfterFrom(WorkerProcess(start, platform), o, steps), calls, statuses)
    requires WorkersSince(start, platform, o, TransportRepeats.AfterFrom(WorkerProcess(start, platform), o, steps), ws)
    requires |ws| == |statuses| + 1
    requires Retries(calls, statuses, 0, till, Call(EOS, session, PutU64(pts)))
    requires !TransportRepeats.MayRepeat(o, Published(calls[0], o.Calls() + 1))
    ensures EosEffect(ws[0], ws[till], session, pts, statuses[till - 1])
    ensures OldRequestIsOther(o, TransportRepeats.AfterFrom(WorkerProcess(start, platform), o, steps), calls[0])
  {
    var t := TransportRepeats.AfterFrom(WorkerProcess(start, platform), o, steps);
    ProcessFitsSlot(start, platform);
    TransportResumes.ResumesSequentialServer(WorkerProcess(start, platform), o, steps);
    EosSince(start, platform, o, t, calls, statuses, ws, till, session, pts);
  }

  // ------------------------------------------------ the two call numbers together

  /** A response passes both the sequence and the id check of another call exactly when
      the calls lie a multiple of 2^32 * (2^32 - 1) apart. */
  lemma CallNumbersCollide(j: nat, k: nat)
    requires 0 < j <= k
    ensures Transport.SequenceOf(j) == Transport.SequenceOf(k) && RequestId(j) == RequestId(k) <==>
            (k - j) % (0x1_0000_0000 * 0xFFFF_FFFF) == 0
  {
    Transport.SequenceCollides(j, k);
    SequenceDistance(j - 1, k - 1);
    IdDistance(j, k);
    BothPeriods(k - j);
  }

  lemma SequenceDistance(a: nat, b: nat)
    requires a <= b
    ensures a % 0xFFFF_FFFF == b % 0xFFFF_FFFF <==> (b - a) % 0xFFFF_FFFF == 0
  {
  }

  lemma IdDistance(a: nat, b: nat)
    requires a <= b
    ensures a % 0x1_0000_0000 == b % 0x1_0000_0000 <==> (b - a) % 0x1_0000_0000 == 0
  {
  }

  /** The two periods are coprime. */
  lemma BothPeriods(d: nat)
    ensures d % 0xFFFF_FFFF == 0 && d % 0x1_0000_0000 == 0 <==> d % (0x1_0000_0000 * 0xFFFF_FFFF) == 0
  {
    if d % 0xFFFF_FFFF == 0 && d % 0x1_0000_0000 == 0 {
      var q := d / 0xFFFF_FFFF;
      assert d == 0x1_0000_0000 * q - q;
      assert q % 0x1_0000_0000 == 0;
      var r := q / 0x1_0000_0000;
      assert d == 0x1_0000_0000 * 0xFFFF_FFFF * r;
    }
    if d % (0x1_0000_0000 * 0xFFFF_FFFF) == 0 {
      var r := d / (0x1_0000_0000 * 0xFFFF_FFFF);
      assert d == 0x1_0000_0000 * (0xFFFF_FFFF * r) && d == 0xFFFF_FFFF * (0x1_0000_0000 * r);
    }
  }

  /** Over any run of the worker, every live session's codec is fed correctly: nothing
      follows an end of stream before a flush, and if the create request that made the
      session asked for an encoder, its frames carry rising timestamps. */
  lemma {:induction false} LiveSessionsWellFed(start: u64, arrivals: seq<Arrival>, i: nat) returns (k: nat)
    requires i < |Run(start, arrivals).0.slots| && Run(start, arrivals).0.slots[i].id != 0
    ensures MadeBy(start, arrivals, k, Run(start, arrivals).0.slots[i])
    ensures WellFed(Run(start, arrivals).0.slots[i].codec.fed, AsksEncoder(Decode(arrivals[k].bytes).request))
  {
    var slot := Run(start, arrivals).0.slots[i];
    RunKeeps(start, arrivals);
    SessionsHaveOrigins(start, arrivals, i);
    k :| MadeBy(start, arrivals, k, slot) && OfKind(Decode(arrivals[k].bytes).request, slot.codec);
  }

  /** The status of a frame sent to a live session, over every run: by the request that
      made the session, its codec's history and the platform's answers. */
  lemma {:induction false} FrameVerdict(start: u64, arrivals: seq<Arrival>, i: nat, data: seq<byte>, pts: u64, flags: u32, a: Answer)
    returns (k: nat)
    requires i < |Run(start, arrivals).0.slots| && Run(start, arrivals).0.slots[i].id != 0
    ensures MadeBy(start, arrivals, k, Run(start, arrivals).0.slots[i])
    ensures var codec := Run(start, arrivals).0.slots[i].codec;
            var verdict := InputVerdict(codec.fed, AsksEncoder(Decode(arrivals[k].bytes).request), data, pts, flags);
            Queue(codec, data, pts, flags, a).1 == if verdict != OK then verdict else PlatformVerdict(codec, a, |data|)
  {
    var slot := Run(start, arrivals).0.slots[i];
    RunKeeps(start, arrivals);
    SessionsHaveOrigins(start, arrivals, i);
    k :| MadeBy(start, arrivals, k, slot) && OfKind(Decode(arrivals[k].bytes).request, slot.codec);
    QueueVerdict(slot.codec, data, pts, flags, a);
  }
}
