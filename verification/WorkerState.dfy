/** The worker's session table and request dispatcher.  The platform's answers
    and all human-readable message texts are parameters of each request. */
module WorkerState {
  import opened Bytes
  import opened CodecStatus
  import opened Wire
  import opened CodecSession

  const HELLO: u16 := 1
  const CAPABILITIES: u16 := 2
  const CREATE: u16 := 3
  const INPUT: u16 := 4
  const OUTPUT: u16 := 5
  const FLUSH: u16 := 6
  const EOS: u16 := 7
  const CLOSE: u16 := 8
  const INPUT_SHARED_MEMORY: u16 := 9
  const OUTPUT_SHARED_MEMORY: u16 := 10
  const CREATE_TRANSCODER: u16 := 11
  const REQUEST_KEYFRAME: u16 := 12
  const HEALTH: u16 := 13
  const SESSION_STATS: u16 := 14

  const MODE_ENCODE: u32 := 2
  const MAX_SESSIONS: nat := 2

  /** A session slot; id 0 marks it free. `handle` numbers codec handles in the
      order they were created. */
  datatype Slot = Slot(id: u64, handle: nat, codec: Session)

  const FREE: Slot := Slot(0, 0, NewSession(false, false))

  /** What the platform answers while one request is dispatched. */
  datatype Platform = Platform(
    text: seq<byte>, createStatus: i32, codec: Answer, flushed: bool, encoderFlushed: bool,
    outputStatus: i32, output: seq<byte>, keyframeStatus: i32, serialized: bool)

  datatype Reply = Reply(status: i32, session: u64, payload: seq<byte>)

  datatype Worker = Worker(
    slots: seq<Slot>, nextId: u64, requests: u64, errors: u64,
    // history: ids in the order of creation, and handles in the order destroyed
    issued: seq<u64>, destroyed: seq<nat>)

  function Clip(text: seq<byte>): (r: seq<byte>)
    ensures |r| <= MAX_PAYLOAD
  {
    if |text| > MAX_PAYLOAD then text[..MAX_PAYLOAD] else text
  }

  function Increment64(v: u64): u64
  {
    if v == 0xFFFF_FFFF_FFFF_FFFF then 0 else v + 1
  }

  /** `++next_session_id`, repeated when it wraps to zero. */
  function NextId(v: u64): u64
  {
    if Increment64(v) == 0 then Increment64(0) else Increment64(v)
  }

  // ------------------------------------------------------------ specification

  /** Index of the first slot with this id; |slots| when there is none. */
  function Find(slots: seq<Slot>, id: u64): (i: nat)
    ensures i <= |slots|
    ensures i < |slots| ==> slots[i].id == id
    ensures forall j :: 0 <= j < i ==> slots[j].id != id
  {
    if slots == [] then 0
    else if slots[0].id == id then 0
    else 1 + Find(slots[1..], id)
  }

  function Fresh(start: u64): Worker
  {
    Worker([FREE, FREE], start, 0, 0, [], [])
  }

  function Close(w: Worker, i: nat): Worker
    requires i < |w.slots|
  {
    if w.slots[i].id == 0 then w
    else w.(slots := w.slots[i := FREE], destroyed := w.destroyed + [w.slots[i].handle])
  }

  function Create(w: Worker, length: nat, expected: nat, transcoder: bool, encoder: bool, p: Platform): (Worker, Reply)
  {
    var i := Find(w.slots, 0);
    if length != expected then (w, Reply(ERROR_PROTOCOL, 0, Clip(p.text)))
    else if i == |w.slots| then (w, Reply(ERROR_LIMIT, 0, Clip(p.text)))
    else if p.createStatus != OK then (w, Reply(p.createStatus, 0, Clip(p.text)))
    else
      var id := NextId(w.nextId);
      (w.(slots := w.slots[i := Slot(id, |w.issued|, NewSession(transcoder, encoder))],
          nextId := id, issued := w.issued + [id]),
       Reply(OK, id, Clip(p.text)))
  }

  function SetCodec(w: Worker, i: nat, codec: Session): Worker
    requires i < |w.slots|
  {
    w.(slots := w.slots[i := w.slots[i].(codec := codec)])
  }

  /** Error statuses carry the message text, successes an empty payload. */
  function Report(status: i32, session: u64, p: Platform): Reply
  {
    Reply(status, session, if status < OK then Clip(p.text) else [])
  }

  function OnSession(w: Worker, kind: u16, session: u64, payload: seq<byte>, p: Platform): (Worker, Reply)
  {
    var i := Find(w.slots, session);
    if i == |w.slots| || session == 0 then (w, Report(ERROR_SESSION, session, p))
    else
      var codec := w.slots[i].codec;
      if kind == INPUT then
        if |payload| < 16 || GetU32(payload, 12) != |payload| - 16 then (w, Report(ERROR_PROTOCOL, session, p))
        else if !OnlyConfigFlag(GetU32(payload, 8)) then (w, Report(ERROR_PROTOCOL, session, p))
        else
          var (t, status) := Queue(codec, payload[16..], GetU64(payload, 0), GetU32(payload, 8), p.codec);
          (SetCodec(w, i, t), Report(status, session, p))
      else if kind == OUTPUT then
        if |payload| != 4 || GetU32(payload, 0) > 1000 then (w, Report(ERROR_LIMIT, session, p))
        else
          (SetCodec(w, i, PumpedState(codec, p.codec.before)),
           if p.outputStatus >= OK then Reply(p.outputStatus, session, Clip(p.output))
           else Report(p.outputStatus, session, p))
      else if kind == EOS then
        if |payload| != 8 then (w, Report(ERROR_PROTOCOL, session, p))
        else
          var (t, status) := QueueEos(codec, GetU64(payload, 0), p.codec);
          (SetCodec(w, i, t), Report(status, session, p))
      else if kind == FLUSH then
        if |payload| != 0 then (w, Report(ERROR_PROTOCOL, session, p))
        else
          var (t, status) := Flush(codec, p.flushed, p.encoderFlushed);
          (SetCodec(w, i, t), Report(status, session, p))
      else if kind == REQUEST_KEYFRAME then
        (w, Report(if |payload| != 0 then ERROR_PROTOCOL else p.keyframeStatus, session, p))
      else if kind == SESSION_STATS then
        if |payload| != 0 then (w, Report(ERROR_PROTOCOL, session, p))
        else if !p.serialized then (w, Report(ERROR_IO, session, p))
        else (w, Reply(OK, session, Clip(p.text)))
      else if kind == CLOSE then
        if |payload| != 0 then (w, Report(ERROR_PROTOCOL, session, p))
        else (Close(w, i), Report(OK, session, p))
      else (w, Report(ERROR_UNSUPPORTED, session, p))
  }

  function Route(w: Worker, r: Request, p: Platform): (Worker, Reply)
  {
    if r.kind == HELLO || r.kind == CAPABILITIES then
      (w, Reply(if r.payload != [] then ERROR_PROTOCOL else OK, 0, Clip(p.text)))
    else if r.kind == HEALTH then
      (w, Reply(if r.payload != [] || r.session != 0 then ERROR_PROTOCOL
                else if !p.serialized then ERROR_IO else OK, 0, Clip(p.text)))
    else if r.kind == CREATE then
      if r.session != 0 then (w, Reply(ERROR_PROTOCOL, r.session, Clip(p.text)))
      else Create(w, |r.payload|, 28, false, |r.payload| >= 4 && GetU32(r.payload, 0) == MODE_ENCODE, p)
    else if r.kind == CREATE_TRANSCODER then
      if r.session != 0 then (w, Reply(ERROR_PROTOCOL, r.session, Clip(p.text)))
      else Create(w, |r.payload|, 24, true, false, p)
    else if r.kind == INPUT_SHARED_MEMORY || r.kind == OUTPUT_SHARED_MEMORY then
      (w, Reply(ERROR_UNSUPPORTED, r.session, Clip(p.text)))
    else OnSession(w, r.kind, r.session, r.payload, p)
  }

  function CountReply(w: Worker, reply: Reply): Worker
  {
    if reply.status < OK then w.(errors := Increment64(w.errors)) else w
  }

  /** `dispatch_request` on the bytes of the request slot. */
  function Dispatch(w: Worker, bytes: seq<byte>, p: Platform): (Worker, Reply)
  {
    var counted := w.(requests := Increment64(w.requests));
    match Decode(bytes)
    case Truncated =>
      var reply := Reply(ERROR_PROTOCOL, 0, Clip(p.text));
      (CountReply(counted, reply), reply)
    case Invalid(r, status) =>
      var reply := Reply(status, r.session, Clip(p.text));
      (CountReply(counted, reply), reply)
    case Valid(r) =>
      var (t, reply) := Route(counted, r, p);
      (CountReply(t, reply), reply)
  }

  /** The shutdown loop over the session array. */
  function CloseAll(w: Worker, n: nat): (r: Worker)
    requires n <= |w.slots|
    ensures |r.slots| == |w.slots|
  {
    if n == 0 then w else Close(CloseAll(w, n - 1), n - 1)
  }

  // ----------------------------------------------------------- every request run

  function IdAfter(start: u64, k: nat): u64
  {
    if k == 0 then start else NextId(IdAfter(start, k - 1))
  }

  const IDS: nat := 0xFFFF_FFFF_FFFF_FFFF

  lemma {:induction false} IdClosedForm(start: u64, k: nat)
    requires k > 0
    ensures IdAfter(start, k) == (start - 1 + k) % IDS + 1
  {
    if k > 1 { IdClosedForm(start, k - 1); }
    IncrementMod(start - 2 + k);
  }

  lemma IncrementMod(n: int)
    requires n >= -1
    ensures (n + 1) % IDS == if n % IDS == IDS - 1 then 0 else n % IDS + 1
  {
  }

  /** Fewer than 2^64 creates never repeat a session id. */
  lemma IdsDistinct(start: u64, i: nat, j: nat)
    requires 0 < i < j && j - i < IDS
    ensures IdAfter(start, i) != IdAfter(start, j)
  {
    IdClosedForm(start, i);
    IdClosedForm(start, j);
    ModDistinct(start - 1 + i, start - 1 + j);
  }

  lemma ModDistinct(a: nat, b: nat)
    requires a < b && b - a < IDS
    ensures a % IDS != b % IDS
  {
  }

  ghost function Live(slots: seq<Slot>): set<nat>
  {
    set i | 0 <= i < |slots| && slots[i].id != 0 :: slots[i].handle
  }

  ghost predicate NoDuplicates(s: seq<nat>)
  {
    forall i, j :: 0 <= i < j < |s| ==> s[i] != s[j]
  }

  /** Live slots refer to distinct created handles and carry the id issued with
      that handle; every handle is live or was destroyed exactly once. */
  ghost predicate TableInv(w: Worker, start: u64)
  {
    && |w.slots| == MAX_SESSIONS
    && w.nextId == IdAfter(start, |w.issued|)
    && (forall k :: 0 <= k < |w.issued| ==> w.issued[k] == IdAfter(start, k + 1) && w.issued[k] != 0)
    && (forall i :: 0 <= i < |w.slots| && w.slots[i].id != 0 ==>
          && w.slots[i].handle < |w.issued| && w.issued[w.slots[i].handle] == w.slots[i].id
          && w.slots[i].handle !in w.destroyed
          && SessionInv(w.slots[i].codec))
    && (forall i, j :: 0 <= i < j < |w.slots| && w.slots[i].id != 0 && w.slots[j].id != 0 ==>
          w.slots[i].handle != w.slots[j].handle)
    && NoDuplicates(w.destroyed)
    && (forall k :: 0 <= k < |w.destroyed| ==> w.destroyed[k] < |w.issued|)
    && (forall h :: 0 <= h < |w.issued| ==> h in w.destroyed || h in Live(w.slots))
  }

  lemma CloseKeeps(w: Worker, start: u64, i: nat)
    requires TableInv(w, start) && i < |w.slots|
    ensures TableInv(Close(w, i), start)
  {
    var t := Close(w, i);
    if w.slots[i].id != 0 {
      var h := w.slots[i].handle;
      forall k | 0 <= k < |w.issued|
        ensures k in t.destroyed || k in Live(t.slots)
      {
        if k == h {
          assert t.destroyed[|w.destroyed|] == k;
        } else if k in w.destroyed {
          var d :| 0 <= d < |w.destroyed| && w.destroyed[d] == k;
          assert t.destroyed[d] == k;
        } else {
          var j :| 0 <= j < |w.slots| && w.slots[j].id != 0 && w.slots[j].handle == k;
          assert t.slots[j] == w.slots[j];
        }
      }
    }
  }

  lemma CreateKeeps(w: Worker, start: u64, length: nat, expected: nat, transcoder: bool, encoder: bool, p: Platform)
    requires TableInv(w, start)
    ensures TableInv(Create(w, length, expected, transcoder, encoder, p).0, start)
  {
    var t := Create(w, length, expected, transcoder, encoder, p).0;
    if t != w {
      var i := Find(w.slots, 0);
      var n := |w.issued|;
      SessionsAreWellFed(transcoder, encoder, []);
      assert t.issued[n] == IdAfter(start, n + 1);
      assert t.slots[i].handle == n;
      forall k | 0 <= k < |t.issued|
        ensures k in t.destroyed || k in Live(t.slots)
      {
        if k < n && k !in w.destroyed {
          var j :| 0 <= j < |w.slots| && w.slots[j].id != 0 && w.slots[j].handle == k;
          assert t.slots[j] == w.slots[j];
        }
      }
    }
  }

  lemma SetCodecKeeps(w: Worker, start: u64, i: nat, codec: Session)
    requires TableInv(w, start) && i < |w.slots| && SessionInv(codec)
    ensures TableInv(SetCodec(w, i, codec), start)
  {
    var t := SetCodec(w, i, codec);
    forall k | 0 <= k < |w.issued| && k !in t.destroyed
      ensures k in Live(t.slots)
    {
      var j :| 0 <= j < |w.slots| && w.slots[j].id != 0 && w.slots[j].handle == k;
      assert t.slots[j].id == w.slots[j].id && t.slots[j].handle == k;
    }
  }

  lemma PumpKeeps(s: Session, p: Pump)
    requires SessionInv(s)
    ensures SessionInv(PumpedState(s, p))
  {
    assert Idles(s, PumpedState(s, p));
  }

  lemma OnSessionKeeps(w: Worker, start: u64, kind: u16, session: u64, payload: seq<byte>, p: Platform)
    requires TableInv(w, start)
    ensures TableInv(OnSession(w, kind, session, payload, p).0, start)
  {
    var i := Find(w.slots, session);
    if i < |w.slots| && session != 0 {
      var codec := w.slots[i].codec;
      if kind == INPUT && |payload| >= 16 {
        InputKeepsInv(codec, payload[16..], GetU64(payload, 0), GetU32(payload, 8), p.codec);
        SetCodecKeeps(w, start, i, Queue(codec, payload[16..], GetU64(payload, 0), GetU32(payload, 8), p.codec).0);
      } else if kind == OUTPUT {
        PumpKeeps(codec, p.codec.before);
        SetCodecKeeps(w, start, i, PumpedState(codec, p.codec.before));
      } else if kind == EOS && |payload| == 8 {
        EosKeepsInv(codec, GetU64(payload, 0), p.codec);
        SetCodecKeeps(w, start, i, QueueEos(codec, GetU64(payload, 0), p.codec).0);
      } else if kind == FLUSH {
        OpKeepsInv(codec, FlushOp(p.flushed, p.encoderFlushed));
        SetCodecKeeps(w, start, i, Flush(codec, p.flushed, p.encoderFlushed).0);
      } else if kind == CLOSE {
        CloseKeeps(w, start, i);
      }
    }
  }

  lemma RouteKeeps(w: Worker, start: u64, r: Request, p: Platform)
    requires TableInv(w, start)
    ensures TableInv(Route(w, r, p).0, start)
  {
    if r.kind == CREATE && r.session == 0 {
      CreateKeeps(w, start, |r.payload|, 28, false, |r.payload| >= 4 && GetU32(r.payload, 0) == MODE_ENCODE, p);
    } else if r.kind == CREATE_TRANSCODER && r.session == 0 {
      CreateKeeps(w, start, |r.payload|, 24, true, false, p);
    } else {
      OnSessionKeeps(w, start, r.kind, r.session, r.payload, p);
    }
  }

  lemma DispatchKeeps(w: Worker, start: u64, bytes: seq<byte>, p: Platform)
    requires TableInv(w, start)
    ensures TableInv(Dispatch(w, bytes, p).0, start)
  {
    if Decode(bytes).Valid? {
      RouteKeeps(w.(requests := Increment64(w.requests)), start, Decode(bytes).request, p);
    }
  }

  /** A request as it arrives, with the platform's answers to it. */
  datatype Arrival = Arrival(bytes: seq<byte>, platform: Platform)

  function Run(start: u64, arrivals: seq<Arrival>): (Worker, seq<Reply>)
  {
    if arrivals == [] then (Fresh(start), [])
    else
      var (w, replies) := Run(start, arrivals[..|arrivals| - 1]);
      var last := arrivals[|arrivals| - 1];
      var (t, reply) := Dispatch(w, last.bytes, last.platform);
      (t, replies + [reply])
  }

  function Negative(replies: seq<Reply>): nat
  {
    if replies == [] then 0
    else Negative(replies[..|replies| - 1]) + if replies[|replies| - 1].status < OK then 1 else 0
  }

  lemma {:induction false} RunKeeps(start: u64, arrivals: seq<Arrival>)
    ensures TableInv(Run(start, arrivals).0, start)
    decreases |arrivals|
  {
    if arrivals == [] {
    } else {
      var before, last := arrivals[..|arrivals| - 1], arrivals[|arrivals| - 1];
      RunKeeps(start, before);
      DispatchKeeps(Run(start, before).0, start, last.bytes, last.platform);
    }
  }

  ghost predicate Counts(w: Worker, replies: seq<Reply>, n: nat)
  {
    && |replies| == n
    && w.requests == n % 0x1_0000_0000_0000_0000
    && w.errors == Negative(replies) % 0x1_0000_0000_0000_0000
  }

  lemma CountsStep(w: Worker, replies: seq<Reply>, n: nat, t: Worker, reply: Reply)
    requires Counts(w, replies, n)
    requires t.requests == Increment64(w.requests)
    requires t.errors == if reply.status < OK then Increment64(w.errors) else w.errors
    ensures Counts(t, replies + [reply], n + 1)
  {
    assert (replies + [reply])[..|replies|] == replies;
    Increment64Mod(n);
    Increment64Mod(Negative(replies));
  }

  /** The two counters: requests dispatched and negative replies, both on 64 bits. */
  lemma {:induction false} CountersMatchReplies(start: u64, arrivals: seq<Arrival>)
    ensures var (w, replies) := Run(start, arrivals);
            && |replies| == |arrivals|
            && w.requests == |arrivals| % 0x1_0000_0000_0000_0000
            && w.errors == Negative(replies) % 0x1_0000_0000_0000_0000
    decreases |arrivals|
  {
    if arrivals != [] {
      var before, last := arrivals[..|arrivals| - 1], arrivals[|arrivals| - 1];
      CountersMatchReplies(start, before);
      var w, replies := Run(start, before).0, Run(start, before).1;
      DispatchCounts(w, last.bytes, last.platform);
      var ran := Dispatch(w, last.bytes, last.platform);
      CountsStep(w, replies, |before|, ran.0, ran.1);
    }
  }

  lemma Increment64Mod(n: nat)
    ensures Increment64(n % 0x1_0000_0000_0000_0000) == (n + 1) % 0x1_0000_0000_0000_0000
  {
  }

  lemma {:induction false} DispatchCounts(w: Worker, bytes: seq<byte>, p: Platform)
    ensures var (t, reply) := Dispatch(w, bytes, p);
            && t.requests == Increment64(w.requests)
            && t.errors == if reply.status < OK then Increment64(w.errors) else w.errors
  {
  }

  /** Every request on this session is refused and changes nothing. */
  ghost predicate Unknown(w: Worker, id: u64)
  {
    forall kind: u16, payload, p :: OnSession(w, kind, id, payload, p) == (w, Report(ERROR_SESSION, id, p))
  }

  lemma IssuedDistinct(w: Worker, start: u64, k: nat, l: nat)
    requires TableInv(w, start) && |w.issued| < IDS
    requires k < l < |w.issued|
    ensures w.issued[k] != w.issued[l]
  {
    IdsDistinct(start, k + 1, l + 1);
  }

  lemma ClosedIsUnknown(w: Worker, start: u64, h: nat)
    requires TableInv(w, start) && |w.issued| < IDS
    requires h in w.destroyed
    ensures h < |w.issued| && Unknown(w, w.issued[h])
  {
    var d :| 0 <= d < |w.destroyed| && w.destroyed[d] == h;
    var i := Find(w.slots, w.issued[h]);
    if i < |w.slots| {
      var l := w.slots[i].handle;
      assert w.issued[l] == w.issued[h];
      if l < h {
        IssuedDistinct(w, start, l, h);
      } else if h < l {
        IssuedDistinct(w, start, h, l);
      }
    }
  }

  lemma LiveDistinct(w: Worker, start: u64, i: nat, j: nat)
    requires TableInv(w, start) && |w.issued| < IDS
    requires i < j < |w.slots| && w.slots[i].id != 0
    ensures w.slots[i].id != w.slots[j].id
  {
    if w.slots[j].id != 0 {
      var a, b := w.slots[i].handle, w.slots[j].handle;
      IssuedDistinct(w, start, if a < b then a else b, if a < b then b else a);
    }
  }

  /** Session ids over any run of fewer than 2^64 creates: at most two live,
      non-zero and distinct; a session that was closed stays unknown to every
      later request. */
  lemma {:induction false} SessionIds(start: u64, arrivals: seq<Arrival>)
    requires |Run(start, arrivals).0.issued| < IDS
    ensures var w := Run(start, arrivals).0;
            && |w.slots| == 2
            && (forall i, j :: 0 <= i < j < |w.slots| && w.slots[i].id != 0 ==> w.slots[i].id != w.slots[j].id)
            && (forall k, l :: 0 <= k < l < |w.issued| ==> w.issued[k] != w.issued[l])
            && 0 !in w.issued
            && (forall h :: h in w.destroyed ==> h < |w.issued| && Unknown(w, w.issued[h]))
  {
    var w := Run(start, arrivals).0;
    RunKeeps(start, arrivals);
    forall i, j | 0 <= i < j < |w.slots| && w.slots[i].id != 0 ensures w.slots[i].id != w.slots[j].id {
      LiveDistinct(w, start, i, j);
    }
    forall k, l | 0 <= k < l < |w.issued| ensures w.issued[k] != w.issued[l] {
      IssuedDistinct(w, start, k, l);
    }
    forall h | h in w.destroyed ensures h < |w.issued| && Unknown(w, w.issued[h]) {
      ClosedIsUnknown(w, start, h);
    }
  }

  lemma {:induction false} CloseAllKeeps(w: Worker, start: u64, n: nat)
    requires TableInv(w, start) && n <= |w.slots|
    ensures TableInv(CloseAll(w, n), start) && CloseAll(w, n).issued == w.issued
    ensures forall i :: 0 <= i < n ==> CloseAll(w, n).slots[i].id == 0
  {
    if n > 0 {
      CloseAllKeeps(w, start, n - 1);
      CloseKeeps(CloseAll(w, n - 1), start, n - 1);
    }
  }

  lemma EmptyTableDestroyedAll(w: Worker, start: u64)
    requires TableInv(w, start) && forall i :: 0 <= i < |w.slots| ==> w.slots[i].id == 0
    ensures forall h :: h in w.destroyed <==> 0 <= h < |w.issued|
  {
    assert Live(w.slots) == {};
    forall h | h in w.destroyed
      ensures 0 <= h < |w.issued|
    {
      var d :| 0 <= d < |w.destroyed| && w.destroyed[d] == h;
    }
  }

  /** Shutting the worker down destroys every codec handle ever created exactly
      once, whatever the clients left open. */
  lemma {:induction false} ShutdownConserves(start: u64, arrivals: seq<Arrival>)
    ensures var ran := Run(start, arrivals).0;
            var w := CloseAll(ran, |ran.slots|);
            && w.issued == ran.issued
            && NoDuplicates(w.destroyed)
            && (forall h :: h in w.destroyed <==> 0 <= h < |w.issued|)
  {
    var w := Run(start, arrivals).0;
    RunKeeps(start, arrivals);
    CloseAllKeeps(w, start, |w.slots|);
    EmptyTableDestroyedAll(CloseAll(w, |w.slots|), start);
  }

  // ------------------------------------------------------- what a request promises

  /** The status of a request to a live session, from the codec's history and the
      platform's answers. */
  ghost function SessionVerdict(codec: Session, kind: u16, payload: seq<byte>, p: Platform): i32
  {
    if kind == INPUT then
      if |payload| < 16 || GetU32(payload, 12) != |payload| - 16 then ERROR_PROTOCOL
      else
        var data, pts, flags := payload[16..], GetU64(payload, 0), GetU32(payload, 8);
        var verdict := InputVerdict(codec.fed, codec.encoder && !codec.transcoder, data, pts, flags);
        if flags != 0 && flags != FLAG_CODEC_CONFIG then ERROR_PROTOCOL
        else if verdict != OK then verdict
        else PlatformVerdict(codec, p.codec, |data|)
    else if kind == OUTPUT then
      if |payload| == 4 && GetU32(payload, 0) <= 1000 then p.outputStatus else ERROR_LIMIT
    else if kind == EOS then
      if |payload| != 8 then ERROR_PROTOCOL
      else if EndIsOpen(codec.fed) then ERROR_SESSION
      else PlatformVerdict(codec, p.codec, 0)
    else if !(FLUSH <= kind <= CLOSE || kind == REQUEST_KEYFRAME || kind == SESSION_STATS) then ERROR_UNSUPPORTED
    else if payload != [] then ERROR_PROTOCOL
    else if kind == FLUSH then (if p.flushed && (codec.transcoder ==> p.encoderFlushed) then OK else ERROR_CODEC)
    else if kind == REQUEST_KEYFRAME then p.keyframeStatus
    else if kind == SESSION_STATS then (if p.serialized then OK else ERROR_IO)
    else OK
  }

  /** One request to a session: nobody else's session changes, an unknown session is
      refused, a live one answers as its history and the platform say, success means
      exactly one record, end of stream or reset in the codec, or exactly one destroyed
      handle, and a dequeued output is the reply. */
  ghost predicate SessionPromise(w: Worker, t: Worker, kind: u16, session: u64, payload: seq<byte>, p: Platform, reply: Reply)
  {
    var i := Find(w.slots, session);
    && reply.session == session && CarriesWhatItShould(kind, p, reply)
    && |t.slots| == |w.slots| && t.issued == w.issued && t.nextId == w.nextId
    && (forall j :: 0 <= j < |w.slots| && j != i ==> t.slots[j] == w.slots[j])
    && (session == 0 || i == |w.slots| ==> t == w && reply.status == ERROR_SESSION)
    && (session != 0 && i < |w.slots| ==>
          && reply.status == SessionVerdict(w.slots[i].codec, kind, payload, p)
          && (kind == OUTPUT && reply.status != ERROR_LIMIT ==> PumpedOnce(w.slots[i].codec, t.slots[i].codec, p.codec.before))
          && SlotKept(w.slots[i], t.slots[i])
          && (kind != INPUT && kind != EOS && kind != FLUSH && kind != CLOSE ==>
                t.slots[i].codec.fed == w.slots[i].codec.fed)
          && (kind != CLOSE || reply.status != OK ==> t.slots[i].id == session && t.destroyed == w.destroyed)
          && (reply.status == OK ==> KnownPromise(w.slots[i], t.slots[i], kind, payload))
          && (reply.status == OK && kind == CLOSE ==> t.destroyed == w.destroyed + [w.slots[i].handle]))
  }

  /** An output request moves a transcoder's frames on, until its encoder got the end. */
  predicate PumpedOnce(s: Session, t: Session, pump: Pump)
  {
    if s.transcoder && !s.encoderEosSignaled then
      && t.stats.surfaceFrames == s.stats.surfaceFrames + pump.frames
      && t.encoderEosSignaled == (pump.Pumped? && pump.eosSignaled)
    else t == s
  }

  /** What a reply carries: the dequeued output, the platform's text for every error and
      report, and otherwise nothing. */
  predicate CarriesWhatItShould(kind: u16, p: Platform, reply: Reply)
  {
    if !IsSessionKind(kind) || reply.status < OK || (kind == SESSION_STATS && reply.status == OK)
    then AtMost(reply.payload, p.text)
    else if kind == OUTPUT then AtMost(reply.payload, p.output)
    else reply.payload == []
  }

  /** All of it, or as much as a payload holds. */
  predicate AtMost(payload: seq<byte>, text: seq<byte>)
  {
    payload == if |text| <= 8 * 1024 * 1024 then text else text[..8 * 1024 * 1024]
  }

  /** The slot is freed, or keeps its id, its handle and the kind of its session. */
  predicate SlotKept(before: Slot, after: Slot)
  {
    after == FREE || (after.id == before.id && after.handle == before.handle && SameMode(before.codec, after.codec))
  }

  /** The record an input payload carries. */
  function InputRecord(payload: seq<byte>): Event
    requires |payload| >= 16
  {
    Record(payload[16..], GetU64(payload, 0), GetU32(payload, 8) == FLAG_CODEC_CONFIG)
  }

  ghost predicate KnownPromise(before: Slot, after: Slot, kind: u16, payload: seq<byte>)
  {
    && (kind == INPUT ==> |payload| >= 16 && after.codec.fed == before.codec.fed + [InputRecord(payload)])
    && (kind == EOS ==> |payload| == 8 && after.codec.fed == before.codec.fed + [EndOfStream(GetU64(payload, 0))])
    && (kind == FLUSH ==> after.codec.fed == before.codec.fed + [Flushed(true)] && !EndIsOpen(after.codec.fed))
    && (if kind == CLOSE then after == FREE else after.id == before.id && after.handle == before.handle)
  }

  /** Every live session's codec was fed correctly. */
  ghost predicate SessionsFed(w: Worker)
  {
    forall i :: 0 <= i < |w.slots| && w.slots[i].id != 0 ==> SessionInv(w.slots[i].codec)
  }

  lemma SessionMeans(w: Worker, kind: u16, session: u64, payload: seq<byte>, p: Platform)
    requires SessionsFed(w)
    ensures SessionPromise(w, OnSession(w, kind, session, payload, p).0, kind, session, payload, p,
                           OnSession(w, kind, session, payload, p).1)
  {
    if kind == INPUT {
      InputMeans(w, session, payload, p);
    } else if kind == EOS {
      EosMeans(w, session, payload, p);
    } else if kind == FLUSH {
      FlushMeans(w, session, payload, p);
    } else {
      OthersMean(w, kind, session, payload, p);
    }
  }

  lemma InputMeans(w: Worker, session: u64, payload: seq<byte>, p: Platform)
    requires SessionsFed(w)
    ensures SessionPromise(w, OnSession(w, INPUT, session, payload, p).0, INPUT, session, payload, p,
                           OnSession(w, INPUT, session, payload, p).1)
  {
    var i := Find(w.slots, session);
    if i < |w.slots| && session != 0 && |payload| >= 16 {
      var codec, data, pts, flags := w.slots[i].codec, payload[16..], GetU64(payload, 0), GetU32(payload, 8);
      QueueFeeds(codec, data, pts, flags, p.codec);
      QueueVerdict(codec, data, pts, flags, p.codec);
      OpKeepsMode(codec, Input(data, pts, flags, p.codec));
    }
  }

  lemma EosMeans(w: Worker, session: u64, payload: seq<byte>, p: Platform)
    requires SessionsFed(w)
    ensures SessionPromise(w, OnSession(w, EOS, session, payload, p).0, EOS, session, payload, p,
                           OnSession(w, EOS, session, payload, p).1)
  {
    var i := Find(w.slots, session);
    if i < |w.slots| && session != 0 && |payload| == 8 {
      var codec, pts := w.slots[i].codec, GetU64(payload, 0);
      QueueEosFeeds(codec, pts, p.codec);
      EosVerdict(codec, pts, p.codec);
      OpKeepsMode(codec, Eos(pts, p.codec));
    }
  }

  lemma FlushMeans(w: Worker, session: u64, payload: seq<byte>, p: Platform)
    requires SessionsFed(w)
    ensures SessionPromise(w, OnSession(w, FLUSH, session, payload, p).0, FLUSH, session, payload, p,
                           OnSession(w, FLUSH, session, payload, p).1)
  {
    var i := Find(w.slots, session);
    if i < |w.slots| && session != 0 { FlushStatus(w.slots[i].codec, p.flushed, p.encoderFlushed); }
  }

  lemma OthersMean(w: Worker, kind: u16, session: u64, payload: seq<byte>, p: Platform)
    requires kind != INPUT && kind != EOS && kind != FLUSH
    ensures SessionPromise(w, OnSession(w, kind, session, payload, p).0, kind, session, payload, p,
                           OnSession(w, kind, session, payload, p).1)
  {
  }

  predicate SameTable(w: Worker, t: Worker)
  {
    w.slots == t.slots && w.nextId == t.nextId && w.issued == t.issued && w.destroyed == t.destroyed
  }

  /** A create fills a slot exactly when its length is right, a slot is free and the
      platform succeeds: with a fresh session of the asked kind under a new non-zero id.
      Otherwise nothing changes and the reply says why. */
  ghost predicate CreatePromise(w: Worker, t: Worker, fits: bool, transcoder: bool, timed: bool, p: Platform, reply: Reply)
  {
    if fits && HasFree(w.slots) && p.createStatus == OK then
      && reply.status == OK && reply.session != 0 && t.issued == w.issued + [reply.session]
      && t.destroyed == w.destroyed && |t.slots| == |w.slots|
      && exists i :: 0 <= i < |w.slots| && FilledAt(w, t, i, reply.session, transcoder, timed)
    else
      && SameTable(w, t)
      && reply.status == if !fits then ERROR_PROTOCOL else if !HasFree(w.slots) then ERROR_LIMIT else p.createStatus
  }

  ghost predicate HasFree(slots: seq<Slot>)
  {
    exists i :: 0 <= i < |slots| && slots[i].id == 0
  }

  ghost predicate FilledAt(w: Worker, t: Worker, i: nat, id: u64, transcoder: bool, timed: bool)
    requires |t.slots| == |w.slots|
  {
    && i < |w.slots| && w.slots[i].id == 0
    && t.slots[i].id == id && t.slots[i].handle == |w.issued|
    && IsFresh(t.slots[i].codec, transcoder, timed)
    && forall j :: 0 <= j < |w.slots| && j != i ==> t.slots[j] == w.slots[j]
  }

  /** A session that has received nothing yet; a timed one encodes and does not transcode. */
  predicate IsFresh(codec: Session, transcoder: bool, timed: bool)
  {
    && codec.fed == [] && codec.transcoder == transcoder && (codec.encoder && !codec.transcoder) == timed
    && !codec.inputEos && !codec.havePts && !codec.encoderEosSignaled
  }

  lemma CreateMeans(w: Worker, length: nat, expected: nat, transcoder: bool, encoder: bool, p: Platform)
    ensures CreatePromise(w, Create(w, length, expected, transcoder, encoder, p).0, length == expected,
                          transcoder, encoder && !transcoder, p, Create(w, length, expected, transcoder, encoder, p).1)
    ensures |Create(w, length, expected, transcoder, encoder, p).1.payload| <= MAX_PAYLOAD
  {
    var t, reply := Create(w, length, expected, transcoder, encoder, p).0, Create(w, length, expected, transcoder, encoder, p).1;
    var i := Find(w.slots, 0);
    if length == expected && i < |w.slots| && p.createStatus == OK {
      assert FilledAt(w, t, i, reply.session, transcoder, encoder && !transcoder);
    }
  }

  /** A create request of the right form, the kind of session it asks for. */
  predicate WellFormedCreate(r: Request)
  {
    r.session == 0 && ((r.kind == CREATE && |r.payload| == 28) || (r.kind == CREATE_TRANSCODER && |r.payload| == 24))
  }

  predicate AsksTranscoder(r: Request)
  {
    r.kind == CREATE_TRANSCODER
  }

  predicate AsksEncoder(r: Request)
  {
    r.kind == CREATE && |r.payload| >= 4 && GetU32(r.payload, 0) == 2
  }

  predicate IsSessionKind(kind: u16)
  {
    kind > HEALTH || kind == 0 || (INPUT <= kind <= CLOSE) || kind == REQUEST_KEYFRAME
  }

  /** A valid request by its kind: create, one session, or no effect on the table. */
  ghost predicate RoutePromise(w: Worker, t: Worker, r: Request, p: Platform, reply: Reply)
  {
    && CarriesWhatItShould(r.kind, p, reply) && t.requests == w.requests && t.errors == w.errors
    && (!IsSessionKind(r.kind) && SameTable(w, t) ==>
          reply.session == if r.kind == HELLO || r.kind == CAPABILITIES || r.kind == HEALTH then 0 else r.session)
    && (if r.kind == CREATE || r.kind == CREATE_TRANSCODER
        then CreatePromise(w, t, WellFormedCreate(r), AsksTranscoder(r), AsksEncoder(r), p, reply)
        else if IsSessionKind(r.kind) then SessionPromise(w, t, r.kind, r.session, r.payload, p, reply)
        else t == w && reply.status == OtherVerdict(r, p))
  }

  /** Greetings and the health report take no payload; shared memory is not offered. */
  function OtherVerdict(r: Request, p: Platform): i32
  {
    if r.kind == INPUT_SHARED_MEMORY || r.kind == OUTPUT_SHARED_MEMORY then ERROR_UNSUPPORTED
    else if r.payload != [] || (r.kind == HEALTH && r.session != 0) then ERROR_PROTOCOL
    else if r.kind == HEALTH && !p.serialized then ERROR_IO
    else OK
  }

  lemma RouteMeans(w: Worker, r: Request, p: Platform)
    requires SessionsFed(w)
    ensures RoutePromise(w, Route(w, r, p).0, r, p, Route(w, r, p).1)
  {
    if r.kind == CREATE || r.kind == CREATE_TRANSCODER {
      RouteCreates(w, r, p);
    } else if IsSessionKind(r.kind) {
      SessionMeans(w, r.kind, r.session, r.payload, p);
    } else {
      RouteOthers(w, r, p);
    }
  }

  lemma RouteCreates(w: Worker, r: Request, p: Platform)
    requires r.kind == CREATE || r.kind == CREATE_TRANSCODER
    ensures RoutePromise(w, Route(w, r, p).0, r, p, Route(w, r, p).1)
  {
    if r.kind == CREATE {
      CreateMeans(w, |r.payload|, 28, false, |r.payload| >= 4 && GetU32(r.payload, 0) == MODE_ENCODE, p);
    } else {
      CreateMeans(w, |r.payload|, 24, true, false, p);
    }
  }

  lemma RouteOthers(w: Worker, r: Request, p: Platform)
    requires r.kind != CREATE && r.kind != CREATE_TRANSCODER && !IsSessionKind(r.kind)
    ensures RoutePromise(w, Route(w, r, p).0, r, p, Route(w, r, p).1)
  {
  }

  /** A dispatched slot content: counted, counted as an error exactly when the reply is
      negative, refused without effect when malformed, and otherwise as its kind says. */
  ghost predicate DispatchPromise(w: Worker, t: Worker, bytes: seq<byte>, p: Platform, reply: Reply)
  {
    && |reply.payload| <= MAX_PAYLOAD
    && t.requests == Increment64(w.requests)
    && t.errors == (if reply.status < OK then Increment64(w.errors) else w.errors)
    && (match Decode(bytes)
        case Valid(r) =>
          RoutePromise(w.(requests := t.requests), t.(errors := w.errors), r, p, reply)
        case _ => SameTable(w, t) && reply.status < OK)
  }

  lemma DispatchMeans(w: Worker, bytes: seq<byte>, p: Platform)
    requires SessionsFed(w)
    ensures DispatchPromise(w, Dispatch(w, bytes, p).0, bytes, p, Dispatch(w, bytes, p).1)
  {
    if Decode(bytes).Valid? {
      RouteMeans(w.(requests := Increment64(w.requests)), Decode(bytes).request, p);
    }
  }

  // ------------------------------------------------- which request made a session

  /** Arrival k is the create request that made this slot's session. */
  ghost predicate MadeBy(start: u64, arrivals: seq<Arrival>, k: nat, slot: Slot)
  {
    && k < |arrivals| && Decode(arrivals[k].bytes).Valid? && WellFormedCreate(Decode(arrivals[k].bytes).request)
    && |Run(start, arrivals[..k]).0.issued| == slot.handle
    && var (w, replies) := Run(start, arrivals[..k + 1]);
       |w.issued| == slot.handle + 1 && |replies| == k + 1 && replies[k].status == OK && replies[k].session == slot.id
  }

  /** It asked for a session of this kind. */
  predicate OfKind(r: Request, codec: Session)
  {
    codec.transcoder == AsksTranscoder(r) && (codec.encoder && !codec.transcoder) == AsksEncoder(r)
  }

  ghost predicate HasOrigin(start: u64, arrivals: seq<Arrival>, slot: Slot)
  {
    exists k: nat :: MadeBy(start, arrivals, k, slot) && OfKind(Decode(arrivals[k].bytes).request, slot.codec)
  }

  /** One dispatch leaves a slot alone but for its codec's history, frees it, or fills it. */
  ghost predicate SlotStep(w: Worker, t: Worker, bytes: seq<byte>, reply: Reply, j: nat)
  {
    && j < |w.slots| == |t.slots|
    && (t.slots[j].id != 0 ==>
          || (w.slots[j].id != 0 && SlotKept(w.slots[j], t.slots[j]))
          || (&& Decode(bytes).Valid? && WellFormedCreate(Decode(bytes).request)
              && t.slots[j].handle == |w.issued| && |t.issued| == |w.issued| + 1
              && reply.status == OK && reply.session == t.slots[j].id
              && OfKind(Decode(bytes).request, t.slots[j].codec)))
  }

  lemma RouteSlot(w: Worker, t: Worker, r: Request, p: Platform, reply: Reply, j: nat)
    requires RoutePromise(w, t, r, p, reply) && j < |w.slots| && |t.slots| == |w.slots| && t.slots[j].id != 0
    ensures || (w.slots[j].id != 0 && SlotKept(w.slots[j], t.slots[j]))
            || (&& WellFormedCreate(r) && t.slots[j].handle == |w.issued| && |t.issued| == |w.issued| + 1
                && reply.status == OK && reply.session == t.slots[j].id && OfKind(r, t.slots[j].codec))
  {
    if r.kind == CREATE || r.kind == CREATE_TRANSCODER {
      if WellFormedCreate(r) && HasFree(w.slots) && p.createStatus == OK {
        var i :| 0 <= i < |w.slots| && FilledAt(w, t, i, reply.session, AsksTranscoder(r), AsksEncoder(r));
      }
    }
  }

  lemma DispatchSlot(w: Worker, bytes: seq<byte>, p: Platform, j: nat)
    requires SessionsFed(w) && j < |w.slots|
    ensures SlotStep(w, Dispatch(w, bytes, p).0, bytes, Dispatch(w, bytes, p).1, j)
  {
    DispatchMeans(w, bytes, p);
    var t, reply := Dispatch(w, bytes, p).0, Dispatch(w, bytes, p).1;
    if Decode(bytes).Valid? && t.slots[j].id != 0 {
      RouteSlot(w.(requests := t.requests), t.(errors := w.errors), Decode(bytes).request, p, reply, j);
    }
  }

  lemma MadeByStays(start: u64, arrivals: seq<Arrival>, last: Arrival, k: nat, slot: Slot)
    requires MadeBy(start, arrivals, k, slot)
    ensures MadeBy(start, arrivals + [last], k, slot)
  {
    var more := arrivals + [last];
    assert more[..k] == arrivals[..k] && more[..k + 1] == arrivals[..k + 1] && more[k] == arrivals[k];
  }

  lemma MadeNow(start: u64, arrivals: seq<Arrival>, last: Arrival, slot: Slot)
    requires Decode(last.bytes).Valid? && WellFormedCreate(Decode(last.bytes).request)
    requires var w := Run(start, arrivals).0;
             var (t, reply) := Dispatch(w, last.bytes, last.platform);
             slot.handle == |w.issued| && |t.issued| == |w.issued| + 1 && reply.status == OK && reply.session == slot.id
    ensures MadeBy(start, arrivals + [last], |arrivals|, slot)
  {
    var more := arrivals + [last];
    assert more[..|arrivals|] == arrivals && more[..|arrivals| + 1] == more && more[|more| - 1] == last;
    CountersMatchReplies(start, arrivals);
  }

  /** Over every run: each live session was made by one create request, which got its id
      as the reply; it transcodes exactly if that request asked for a transcoder, and is
      held to rising timestamps exactly if it asked for an encoder. */
  lemma {:induction false} SessionsHaveOrigins(start: u64, arrivals: seq<Arrival>, j: nat)
    requires j < |Run(start, arrivals).0.slots| && Run(start, arrivals).0.slots[j].id != 0
    ensures HasOrigin(start, arrivals, Run(start, arrivals).0.slots[j])
    decreases |arrivals|
  {
    if arrivals != [] {
      var before, last := arrivals[..|arrivals| - 1], arrivals[|arrivals| - 1];
      assert arrivals == before + [last];
      var w := Run(start, before).0;
      RunKeeps(start, before);
      RunKeeps(start, arrivals);
      DispatchSlot(w, last.bytes, last.platform, j);
      if w.slots[j].id != 0 { SessionsHaveOrigins(start, before, j); }
      OriginStep(start, before, last, j);
    }
  }

  lemma OriginStep(start: u64, before: seq<Arrival>, last: Arrival, j: nat)
    requires j < |Run(start, before).0.slots|
    requires var w := Run(start, before).0;
             var (t, reply) := Dispatch(w, last.bytes, last.platform);
             SlotStep(w, t, last.bytes, reply, j) && t.slots[j].id != 0 && (w.slots[j].id != 0 ==> HasOrigin(start, before, w.slots[j]))
    ensures HasOrigin(start, before + [last], Dispatch(Run(start, before).0, last.bytes, last.platform).0.slots[j])
  {
    var w, more := Run(start, before).0, before + [last];
    var slot := Dispatch(w, last.bytes, last.platform).0.slots[j];
    if w.slots[j].id != 0 && SlotKept(w.slots[j], slot) {
      OriginStays(start, before, last, w.slots[j], slot);
    } else {
      MadeNow(start, before, last, slot);
      assert more[|before|] == last;
    }
  }

  lemma OriginStays(start: u64, before: seq<Arrival>, last: Arrival, was: Slot, slot: Slot)
    requires HasOrigin(start, before, was) && slot.id != 0 && SlotKept(was, slot)
    ensures HasOrigin(start, before + [last], slot)
  {
    var k: nat :| MadeBy(start, before, k, was) && OfKind(Decode(before[k].bytes).request, was.codec);
    MadeByStays(start, before, last, k, was);
    assert (before + [last])[k] == before[k];
    assert MadeBy(start, before + [last], k, slot);
  }

  // ------------------------------------------------------- the worker object

  /** A slot of the worker's array: its id, 0 when free, and its codec object. */
  datatype SlotRef = SlotRef(id: u64, handle: nat, codec: CodecObject?)

  class WorkerObject {
    const slots: array<SlotRef>
    var nextId: u64
    var requests: u64
    var errors: u64
    var issued: seq<u64>
    var destroyed: seq<nat>
    ghost const start: u64

    /** Live slots have valid codec objects of their own. */
    ghost predicate Shape()
      reads this, slots, Codecs()
    {
      && slots.Length == MAX_SESSIONS
      && (slots[0].id == 0 <==> slots[0].codec == null) && (slots[1].id == 0 <==> slots[1].codec == null)
      && (slots[0].codec != null ==> slots[0].codec != slots[1].codec && slots[0].codec.Valid())
      && (slots[1].codec != null ==> slots[1].codec.Valid())
    }

    ghost function Object(r: SlotRef): set<object>
    {
      if r.codec == null then {} else {r.codec}
    }

    ghost function Codecs(): set<object>
      reads this, slots
    {
      if slots.Length != MAX_SESSIONS then {} else Object(slots[0]) + Object(slots[1])
    }

    ghost function ViewOf(r: SlotRef): Slot
      reads r.codec
    {
      Slot(r.id, r.handle, if r.codec == null then NewSession(false, false) else r.codec.View())
    }

    ghost function View(): Worker
      reads this, slots, Codecs()
      requires slots.Length == MAX_SESSIONS
    {
      Worker([ViewOf(slots[0]), ViewOf(slots[1])], nextId, requests, errors, issued, destroyed)
    }

    /** The table keeps its invariant: ids issued in order, every handle live or
        destroyed once, every live session fed correctly. */
    ghost predicate Valid()
      reads this, slots, Codecs()
    {
      Shape() && TableInv(View(), start)
    }

    constructor (start: u64)
      ensures Valid() && fresh(slots) && this.start == start && Codecs() == {}
      ensures View() == Fresh(start)
    {
      slots := new SlotRef[MAX_SESSIONS](_ => SlotRef(0, 0, null));
      nextId, requests, errors := start, 0, 0;
      issued, destroyed := [], [];
      this.start := start;
    }

    method FindSlot(id: u64) returns (i: nat)
      requires Shape()
      ensures i == Find(View().slots, id) <= MAX_SESSIONS
    {
      i := 0;
      while i < slots.Length
        invariant i <= slots.Length
        invariant forall j :: 0 <= j < i ==> slots[j].id != id
      {
        if slots[i].id == id { break; }
        i := i + 1;
      }
      ghost var view := View().slots;
      assert view[0].id == slots[0].id && view[1].id == slots[1].id;
    }

    /** `close_session`: the handle is destroyed once and the slot is free. */
    method CloseSlot(i: nat)
      requires Shape() && i < MAX_SESSIONS
      modifies this, slots
      ensures Shape() && View() == Close(old(View()), i) && Codecs() <= old(Codecs())
      ensures slots[i].id == 0
      ensures destroyed == if old(slots[i].id) == 0 then old(destroyed) else old(destroyed) + [old(slots[i].handle)]
    {
      if slots[i].id == 0 { return; }
      destroyed := destroyed + [slots[i].handle];
      slots[i] := SlotRef(0, 0, null);
    }

    /** A fresh codec object in a free slot. */
    method Place(i: nat, id: u64, transcoder: bool, encoder: bool)
      requires Shape() && i < MAX_SESSIONS && slots[i].id == 0 && id != 0
      modifies slots
      ensures Shape() && fresh(Codecs() - old(Codecs()))
      ensures View() == old(View()).(slots := old(View()).slots[i := Slot(id, |issued|, NewSession(transcoder, encoder))])
    {
      var codec := new CodecObject(transcoder, encoder);
      slots[i] := SlotRef(id, |issued|, codec);
    }

    /** The next session id; 0 is skipped. */
    method TakeId() returns (id: u64)
      requires Shape()
      modifies this
      ensures Shape() && Codecs() == old(Codecs())
      ensures id == NextId(old(nextId)) && id != 0
      ensures View() == old(View()).(nextId := id)
    {
      nextId := Increment64(nextId);
      if nextId == 0 { nextId := Increment64(nextId); }
      id := nextId;
    }

    method CreateSession(length: nat, expected: nat, transcoder: bool, encoder: bool, p: Platform) returns (reply: Reply)
      requires Shape()
      modifies this, slots
      ensures Shape() && fresh(Codecs() - old(Codecs()))
      ensures (View(), reply) == Create(old(View()), length, expected, transcoder, encoder, p)
      ensures CreatePromise(old(View()), View(), length == expected, transcoder, encoder && !transcoder, p, reply)
    {
      ghost var before := View();
      reply := TryCreate(length, expected, transcoder, encoder, p);
      CreateMeans(before, length, expected, transcoder, encoder, p);
    }

    method TryCreate(length: nat, expected: nat, transcoder: bool, encoder: bool, p: Platform) returns (reply: Reply)
      requires Shape()
      modifies this, slots
      ensures Shape() && fresh(Codecs() - old(Codecs()))
      ensures (View(), reply) == Create(old(View()), length, expected, transcoder, encoder, p)
    {
      if length != expected { return Reply(ERROR_PROTOCOL, 0, Clip(p.text)); }
      var i := FindSlot(0);
      if i == slots.Length { return Reply(ERROR_LIMIT, 0, Clip(p.text)); }
      if p.createStatus != OK { return Reply(p.createStatus, 0, Clip(p.text)); }
      var id := TakeId();
      Place(i, id, transcoder, encoder);
      issued := issued + [id];
      reply := Reply(OK, id, Clip(p.text));
    }

    // ------------------------------------------------ requests to one session

    method InputTo(i: nat, payload: seq<byte>, p: Platform) returns (status: i32)
      requires Shape() && i < MAX_SESSIONS && slots[i].id != 0 && |payload| >= 16
      modifies slots[i].codec
      ensures Shape() && Codecs() == old(Codecs())
      ensures var (t, s) := Queue(old(View()).slots[i].codec, payload[16..], GetU64(payload, 0), GetU32(payload, 8), p.codec);
              status == s && View() == SetCodec(old(View()), i, t)
    {
      status := slots[i].codec.Enqueue(payload[16..], GetU64(payload, 0), GetU32(payload, 8), p.codec);
    }

    method EndOf(i: nat, pts: u64, p: Platform) returns (status: i32)
      requires Shape() && i < MAX_SESSIONS && slots[i].id != 0
      modifies slots[i].codec
      ensures Shape() && Codecs() == old(Codecs())
      ensures var (t, s) := QueueEos(old(View()).slots[i].codec, pts, p.codec);
              status == s && View() == SetCodec(old(View()), i, t)
    {
      status := slots[i].codec.EnqueueEos(pts, p.codec);
    }

    method FlushOf(i: nat, p: Platform) returns (status: i32)
      requires Shape() && i < MAX_SESSIONS && slots[i].id != 0
      modifies slots[i].codec
      ensures Shape() && Codecs() == old(Codecs())
      ensures var (t, s) := Flush(old(View()).slots[i].codec, p.flushed, p.encoderFlushed);
              status == s && View() == SetCodec(old(View()), i, t)
    {
      status := slots[i].codec.Reset(p.flushed, p.encoderFlushed);
    }

    /** The transcoder pump of an output request. */
    method PumpOf(i: nat, p: Platform)
      requires Shape() && i < MAX_SESSIONS && slots[i].id != 0
      modifies slots[i].codec
      ensures Shape() && Codecs() == old(Codecs())
      ensures View() == SetCodec(old(View()), i, PumpedState(old(View()).slots[i].codec, p.codec.before))
    {
      PumpKeeps(slots[i].codec.View(), p.codec.before);
      if slots[i].codec.transcoder {
        var _ := slots[i].codec.PumpTranscoder(p.codec.before);
      }
    }

    /** `dispatch_session`. */
    method SessionRequest(kind: u16, session: u64, payload: seq<byte>, p: Platform) returns (reply: Reply)
      requires Shape()
      modifies this, slots, Codecs()
      ensures Shape() && Codecs() <= old(Codecs())
      ensures (View(), reply) == OnSession(old(View()), kind, session, payload, p)
      ensures SessionPromise(old(View()), View(), kind, session, payload, p, reply)
    {
      ghost var before := View();
      assert SessionsFed(before);
      reply := TrySession(kind, session, payload, p);
      SessionMeans(before, kind, session, payload, p);
    }

    method TrySession(kind: u16, session: u64, payload: seq<byte>, p: Platform) returns (reply: Reply)
      requires Shape()
      modifies this, slots, Codecs()
      ensures Shape() && Codecs() <= old(Codecs())
      ensures (View(), reply) == OnSession(old(View()), kind, session, payload, p)
    {
      var i := FindSlot(session);
      if i == slots.Length || session == 0 { return Report(ERROR_SESSION, session, p); }
      var status := OK;
      if kind == INPUT {
        if |payload| < 16 || GetU32(payload, 12) != |payload| - 16 { return Report(ERROR_PROTOCOL, session, p); }
        if !OnlyConfigFlag(GetU32(payload, 8)) { return Report(ERROR_PROTOCOL, session, p); }
        status := InputTo(i, payload, p);
      } else if kind == OUTPUT {
        if |payload| != 4 || GetU32(payload, 0) > 1000 { return Report(ERROR_LIMIT, session, p); }
        PumpOf(i, p);
        if p.outputStatus >= OK { return Reply(p.outputStatus, session, Clip(p.output)); }
        status := p.outputStatus;
      } else if kind == EOS {
        if |payload| != 8 { return Report(ERROR_PROTOCOL, session, p); }
        status := EndOf(i, GetU64(payload, 0), p);
      } else if kind == FLUSH {
        if |payload| != 0 { return Report(ERROR_PROTOCOL, session, p); }
        status := FlushOf(i, p);
      } else if kind == REQUEST_KEYFRAME {
        if |payload| != 0 { return Report(ERROR_PROTOCOL, session, p); }
        status := p.keyframeStatus;
      } else if kind == SESSION_STATS {
        if |payload| != 0 { return Report(ERROR_PROTOCOL, session, p); }
        if !p.serialized { return Report(ERROR_IO, session, p); }
        return Reply(OK, session, Clip(p.text));
      } else if kind == CLOSE {
        if |payload| != 0 { return Report(ERROR_PROTOCOL, session, p); }
        CloseSlot(i);
      } else {
        status := ERROR_UNSUPPORTED;
      }
      reply := Report(status, session, p);
    }

    // ---------------------------------------------------------- every request

    method RouteRequest(r: Request, p: Platform) returns (reply: Reply)
      requires Shape()
      modifies this, slots, Codecs()
      ensures Shape() && fresh(Codecs() - old(Codecs()))
      ensures (View(), reply) == Route(old(View()), r, p)
      ensures RoutePromise(old(View()), View(), r, p, reply)
    {
      ghost var before := View();
      assert SessionsFed(before);
      reply := TryRoute(r, p);
      RouteMeans(before, r, p);
    }

    method TryRoute(r: Request, p: Platform) returns (reply: Reply)
      requires Shape()
      modifies this, slots, Codecs()
      ensures Shape() && fresh(Codecs() - old(Codecs()))
      ensures (View(), reply) == Route(old(View()), r, p)
    {
      if r.kind == HELLO || r.kind == CAPABILITIES {
        reply := Reply(if r.payload != [] then ERROR_PROTOCOL else OK, 0, Clip(p.text));
      } else if r.kind == HEALTH {
        reply := Reply(if r.payload != [] || r.session != 0 then ERROR_PROTOCOL
                       else if !p.serialized then ERROR_IO else OK, 0, Clip(p.text));
      } else if r.kind == CREATE || r.kind == CREATE_TRANSCODER {
        if r.session != 0 { return Reply(ERROR_PROTOCOL, r.session, Clip(p.text)); }
        if r.kind == CREATE {
          reply := CreateSession(|r.payload|, 28, false,
                                 |r.payload| >= 4 && GetU32(r.payload, 0) == MODE_ENCODE, p);
        } else {
          reply := CreateSession(|r.payload|, 24, true, false, p);
        }
      } else if r.kind == INPUT_SHARED_MEMORY || r.kind == OUTPUT_SHARED_MEMORY {
        reply := Reply(ERROR_UNSUPPORTED, r.session, Clip(p.text));
      } else {
        reply := SessionRequest(r.kind, r.session, r.payload, p);
      }
    }

    /** `dispatch_request`: the table keeps its invariant and the request does what its
        kind promises, no more. */
    method DispatchRequest(bytes: seq<byte>, p: Platform) returns (reply: Reply)
      requires Valid()
      modifies this, slots, Codecs()
      ensures Valid() && fresh(Codecs() - old(Codecs()))
      ensures (View(), reply) == Dispatch(old(View()), bytes, p)
      ensures DispatchPromise(old(View()), View(), bytes, p, reply)
    {
      ghost var before := View();
      reply := TryDispatch(bytes, p);
      DispatchKeeps(before, start, bytes, p);
      DispatchMeans(before, bytes, p);
    }

    method TryDispatch(bytes: seq<byte>, p: Platform) returns (reply: Reply)
      requires Shape()
      modifies this, slots, Codecs()
      ensures Shape() && fresh(Codecs() - old(Codecs()))
      ensures (View(), reply) == Dispatch(old(View()), bytes, p)
    {
      CountRequest();
      match Decode(bytes) {
        case Truncated => reply := Reply(ERROR_PROTOCOL, 0, Clip(p.text));
        case Invalid(r, status) => reply := Reply(status, r.session, Clip(p.text));
        case Valid(r) => reply := RouteRequest(r, p);
      }
      CountError(reply);
    }

    method CountRequest()
      requires Shape()
      modifies this
      ensures Shape() && Codecs() == old(Codecs())
      ensures View() == old(View()).(requests := Increment64(old(View()).requests))
    {
      requests := Increment64(requests);
    }

    method CountError(reply: Reply)
      requires Shape()
      modifies this
      ensures Shape() && Codecs() == old(Codecs()) && View() == CountReply(old(View()), reply)
    {
      if reply.status < OK { errors := Increment64(errors); }
    }

    /** The closing loop: afterwards every handle ever created has been destroyed once. */
    method Shutdown()
      requires Valid()
      modifies this, slots
      ensures Valid() && View() == CloseAll(old(View()), MAX_SESSIONS)
      ensures issued == old(issued) && NoDuplicates(destroyed)
      ensures forall h :: h in destroyed <==> 0 <= h < |issued|
    {
      ghost var before := View();
      CloseSlots();
      CloseAllKeeps(before, start, MAX_SESSIONS);
      EmptyTableDestroyedAll(CloseAll(before, MAX_SESSIONS), start);
    }

    method CloseSlots()
      requires Shape()
      modifies this, slots
      ensures Shape() && View() == CloseAll(old(View()), MAX_SESSIONS)
    {
      var i := 0;
      while i < slots.Length
        invariant i <= slots.Length && Shape()
        invariant Codecs() <= old(Codecs())
        invariant View() == CloseAll(old(View()), i)
      {
        CloseSlot(i);
        i := i + 1;
      }
    }
  }
}
