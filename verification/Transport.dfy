/** The shared-memory call transport between the Debian client and its private
    codec worker, as a two-process step system.

    Both processes run at the granularity of one atomic word access, one eventfd
    operation or one slot byte.  Between its first and its last store into a slot
    a writer may leave arbitrary bytes there, so every store order, including the
    initial clearing of a header, is covered.  An eventfd is a counter that a
    read resets to zero.  The acquire/release pairs of the source make the
    accesses sequentially consistent here. */
module Transport {
  import opened Bytes
  import Wire

  const SLOT_BYTES: nat := Wire.SLOT_BYTES

  /** Number of distinct call sequence values: every 32-bit value except 0. */
  const SEQUENCES: nat := 0xFFFF_FFFF

  // ---------------------------------------------------------------- sequence

  /** `++` on a 32-bit unsigned word. */
  function Increment(s: u32): (r: u32)
  {
    if s == 0xFFFF_FFFF then 0 else s + 1
  }

  /** `++worker.sequence`, repeated once when it wraps to zero. */
  function NextSequence(s: u32): (r: u32)
  {
    if Increment(s) == 0 then Increment(0) else Increment(s)
  }

  /** The sequence value of the k-th call (0 before the first). */
  function SequenceOf(k: nat): (r: u32)
  {
    if k == 0 then 0 else NextSequence(SequenceOf(k - 1))
  }

  lemma {:induction false} SequenceClosedForm(k: nat)
    requires k > 0
    ensures SequenceOf(k) == (k - 1) % SEQUENCES + 1
  {
    if k == 1 {
      assert SequenceOf(1) == NextSequence(SequenceOf(0));
    } else {
      SequenceClosedForm(k - 1);
      ModStep(k - 2);
    }
  }

  lemma ModStep(n: nat)
    ensures (n + 1) % SEQUENCES == if n % SEQUENCES == SEQUENCES - 1 then 0 else n % SEQUENCES + 1
  {
  }

  /** Two calls share a sequence value exactly when their distance is a multiple
      of 2^32 - 1; zero is never used. */
  lemma SequenceCollides(j: nat, k: nat)
    requires 0 < j && 0 < k
    ensures SequenceOf(k) != 0
    ensures SequenceOf(j) == SequenceOf(k) <==> (j - 1) % SEQUENCES == (k - 1) % SEQUENCES
  {
    SequenceClosedForm(j);
    SequenceClosedForm(k);
  }

  /** Within the first 2^32 - 1 calls the sequence identifies the call; call
      2^32 is the first to repeat one. */
  lemma {:induction false} SequenceIdentifiesCall(j: nat, k: nat)
    requires j <= k <= SEQUENCES && 0 < k
    requires SequenceOf(j) == SequenceOf(k)
    ensures j == k
  {
    SmallSequence(j);
    SmallSequence(k);
  }

  lemma {:induction false} SmallSequence(k: nat)
    requires k <= SEQUENCES
    ensures SequenceOf(k) == k
  {
    if k > 0 {
      SequenceClosedForm(k);
      SmallMod(k - 1);
    }
  }

  lemma SmallMod(n: nat)
    requires n < SEQUENCES
    ensures n % SEQUENCES == n
  {
  }

  lemma FirstCollision()
    ensures SequenceOf(0x1_0000_0000) == SequenceOf(1)
  {
    SequenceClosedForm(1);
    SequenceClosedForm(0x1_0000_0000);
  }

  // ------------------------------------------------------------------- state

  /** A slot byte and who stored it: the call for the request slot, the dispatch
      for the response slot (0: never stored). */
  datatype Cell = Cell(value: byte, writer: nat)

  datatype ClientPc =
    | Idle
    | Writing                                  // make_request_header, memcpy
    | SlotReady                                // slot complete
    | BytesStored                              // request_bytes stored
    | Published                                // request_sequence stored
    | Waiting                                  // request signalled
    | Woken                                    // response eventfd read
    | SequenceLoaded(sequence: u32, call: nat) // response_sequence loaded
    | Reading(length: nat, got: seq<Cell>)     // parse_response reads the slot

  datatype WorkerPc =
    | Polling
    | Signalled                                   // request eventfd read
    | Loaded(call: nat)                           // request_sequence loaded
    | Fetching(call: nat, length: nat, got: seq<Cell>)
    | Replying(call: nat, reply: seq<byte>)       // storing into the response slot
    | ReplyReady(call: nat, reply: seq<byte>)
    | ReplySized(call: nat, reply: seq<byte>)     // response_bytes stored
    | ReplyPublished(call: nat)                   // response_sequence stored

  /** One execution of the worker's dispatcher: the call whose sequence it had
      loaded, the request bytes it saw and the reply it produced. */
  datatype Dispatch = Dispatch(call: nat, request: seq<byte>, reply: seq<byte>)

  /** A call for which `rpc` got past its sequence check, with the cells it read. */
  datatype Acceptance = Acceptance(call: nat, cells: seq<Cell>)

  /** The worker's dispatcher: any function of its state and the request. */
  datatype Env<!W> = Env(serve: (W, seq<byte>) -> (W, seq<byte>), init: W)

  ghost predicate FitsSlot<W(!new)>(env: Env<W>)
  {
    forall w, m :: |env.serve(w, m).1| <= SLOT_BYTES
  }

  datatype State<W> = State(
    // client
    issued: seq<seq<byte>>, client: ClientPc,
    // shared control page; the *Call fields say whose sequence a word holds
    requestSlot: seq<Cell>, requestBytes: nat, requestSequence: u32, requestCall: nat,
    responseSlot: seq<Cell>, responseBytes: nat, responseSequence: u32, responseCall: nat,
    requestSignals: nat, responseSignals: nat,
    // worker
    worker: WorkerPc, w: W, log: seq<Dispatch>,
    // observations
    accepted: seq<Acceptance>, refused: nat, timeouts: nat)
  {
    /** Index of the newest call; calls are numbered from 1. */
    function Calls(): nat { |issued| }

    function Message(): seq<byte>
      requires issued != []
    {
      issued[|issued| - 1]
    }
  }

  function Values(cells: seq<Cell>): (r: seq<byte>)
    ensures |r| == |cells|
    ensures forall i :: 0 <= i < |cells| ==> r[i] == cells[i].value
  {
    seq(|cells|, i requires 0 <= i < |cells| => cells[i].value)
  }

  ghost predicate Holds(slot: seq<Cell>, bytes: seq<byte>, writer: nat)
  {
    && |bytes| <= |slot|
    && forall i :: 0 <= i < |bytes| ==> slot[i] == Cell(bytes[i], writer)
  }

  ghost predicate Prefix(got: seq<Cell>, slot: seq<Cell>)
  {
    && |got| <= |slot|
    && forall i :: 0 <= i < |got| ==> got[i] == slot[i]
  }

  /** `after` differs from `before` only in cells stored by `writer`. */
  ghost predicate StoredBy(before: seq<Cell>, after: seq<Cell>, writer: nat)
  {
    && |after| == |before|
    && forall i :: 0 <= i < |after| ==> after[i] == before[i] || after[i].writer == writer
  }

  ghost function Init<W>(env: Env<W>): State<W>
  {
    var blank := seq(SLOT_BYTES, i => Cell(0, 0));
    State([], Idle, blank, 0, 0, 0, blank, 0, 0, 0, 0, 0, Polling, env.init, [], [], 0, 0)
  }

  // ------------------------------------------------------------------- steps

  datatype Step =
    // client
    | Begin(message: seq<byte>)
    | StoreRequest(slot: seq<Cell>)
    | RequestComplete
    | StoreRequestBytes
    | StoreRequestSequence
    | SignalRequest
    | TimeOut
    | ReadResponseSignal
    | LoadResponseSequence
    | LoadResponseBytes
    | ReadResponseByte
    | Finish
    // worker
    | ReadRequestSignal
    | LoadRequestSequence
    | LoadRequestBytes
    | FetchRequestByte
    | Serve
    | StoreResponse(cells: seq<Cell>)
    | ResponseComplete
    | StoreResponseBytes
    | StoreResponseSequence
    | SignalResponse

  ghost predicate Enabled<W>(s: State<W>, step: Step)
  {
    match step
    case Begin(m) => s.client.Idle? && |m| <= SLOT_BYTES
    case StoreRequest(slot) => s.client.Writing? && StoredBy(s.requestSlot, slot, s.Calls())
    case RequestComplete => s.client.Writing? && s.issued != [] && Holds(s.requestSlot, s.Message(), s.Calls())
    case StoreRequestBytes => s.client.SlotReady? && s.issued != []
    case StoreRequestSequence => s.client.BytesStored?
    case SignalRequest => s.client.Published?
    case TimeOut => s.client.Waiting? && s.responseSignals == 0
    case ReadResponseSignal => s.client.Waiting? && s.responseSignals > 0
    case LoadResponseSequence => s.client.Woken?
    case LoadResponseBytes => s.client.SequenceLoaded?
    case ReadResponseByte => s.client.Reading? && |s.client.got| < s.client.length <= |s.responseSlot|
    case Finish => s.client.Reading? && |s.client.got| == s.client.length
    case ReadRequestSignal => s.worker.Polling? && s.requestSignals > 0
    case LoadRequestSequence => s.worker.Signalled?
    case LoadRequestBytes => s.worker.Loaded? && s.requestBytes <= SLOT_BYTES
    case FetchRequestByte => s.worker.Fetching? && |s.worker.got| < s.worker.length <= |s.requestSlot|
    case Serve => s.worker.Fetching? && |s.worker.got| == s.worker.length
    case StoreResponse(cells) => s.worker.Replying? && StoredBy(s.responseSlot, cells, |s.log|)
    case ResponseComplete => s.worker.Replying? && Holds(s.responseSlot, s.worker.reply, |s.log|)
    case StoreResponseBytes => s.worker.ReplyReady?
    case StoreResponseSequence => s.worker.ReplySized?
    case SignalResponse => s.worker.ReplyPublished?
  }

  ghost function Apply<W>(env: Env<W>, s: State<W>, step: Step): State<W>
    requires Enabled(s, step)
  {
    match step
    case Begin(m) => s.(issued := s.issued + [m], client := Writing)
    case StoreRequest(slot) => s.(requestSlot := slot)
    case RequestComplete => s.(client := SlotReady)
    case StoreRequestBytes => s.(requestBytes := |s.Message()|, client := BytesStored)
    case StoreRequestSequence =>
      s.(requestSequence := SequenceOf(s.Calls()), requestCall := s.Calls(), client := Published)
    case SignalRequest => s.(requestSignals := s.requestSignals + 1, client := Waiting)
    case TimeOut => s.(client := Idle, timeouts := s.timeouts + 1)
    case ReadResponseSignal => s.(responseSignals := 0, client := Woken)
    case LoadResponseSequence => s.(client := SequenceLoaded(s.responseSequence, s.responseCall))
    case LoadResponseBytes =>
      if s.client.sequence != SequenceOf(s.Calls()) || s.responseBytes > SLOT_BYTES
      then s.(client := Idle, refused := s.refused + 1)
      else s.(client := Reading(s.responseBytes, []))
    case ReadResponseByte =>
      s.(client := s.client.(got := s.client.got + [s.responseSlot[|s.client.got|]]))
    case Finish =>
      s.(client := Idle, accepted := s.accepted + [Acceptance(s.Calls(), s.client.got)])
    case ReadRequestSignal => s.(requestSignals := 0, worker := Signalled)
    case LoadRequestSequence => s.(worker := Loaded(s.requestCall))
    case LoadRequestBytes => s.(worker := Fetching(s.worker.call, s.requestBytes, []))
    case FetchRequestByte =>
      s.(worker := s.worker.(got := s.worker.got + [s.requestSlot[|s.worker.got|]]))
    case Serve =>
      var request := Values(s.worker.got);
      var (w, reply) := env.serve(s.w, request);
      s.(w := w, worker := Replying(s.worker.call, reply),
         log := s.log + [Dispatch(s.worker.call, request, reply)])
    case StoreResponse(cells) => s.(responseSlot := cells)
    case ResponseComplete => s.(worker := ReplyReady(s.worker.call, s.worker.reply))
    case StoreResponseBytes =>
      s.(responseBytes := |s.worker.reply|, worker := ReplySized(s.worker.call, s.worker.reply))
    case StoreResponseSequence =>
      s.(responseSequence := SequenceOf(s.worker.call), responseCall := s.worker.call,
         worker := ReplyPublished(s.worker.call))
    case SignalResponse => s.(responseSignals := s.responseSignals + 1, worker := Polling)
  }

  /** A run is the list of its steps, each enabled where it is taken. */
  ghost predicate Legal<W>(env: Env<W>, steps: seq<Step>)
    decreases |steps|, 0
  {
    steps == [] ||
    (var before := steps[..|steps| - 1];
     Legal(env, before) && Enabled(After(env, before), steps[|steps| - 1]))
  }

  ghost function After<W>(env: Env<W>, steps: seq<Step>): State<W>
    requires Legal(env, steps)
    decreases |steps|, 1
  {
    if steps == [] then Init(env)
    else Apply(env, After(env, steps[..|steps| - 1]), steps[|steps| - 1])
  }

  // ------------------------------------- any run, timeouts and stale signals

  /** The newest request is in the slot and its sequence is visible. */
  predicate Visible<W>(s: State<W>)
  {
    s.issued != [] && !s.client.Writing? && !s.client.SlotReady? && !s.client.BytesStored?
  }

  /** Dispatch d ran on exactly the request of call k, having loaded k's sequence. */
  predicate Answers(log: seq<Dispatch>, issued: seq<seq<byte>>, d: nat, k: nat)
  {
    && 1 <= d <= |log| && 1 <= k <= |issued|
    && log[d - 1].call == k && log[d - 1].request == issued[k - 1]
  }

  /** The first n cells were all stored by dispatches that answer call k. */
  ghost predicate AllAnswer(log: seq<Dispatch>, issued: seq<seq<byte>>, cells: seq<Cell>, n: nat, k: nat)
  {
    && n <= |cells|
    && forall i :: 0 <= i < n ==> Answers(log, issued, cells[i].writer, k)
  }

  ghost predicate SharedInv<W>(s: State<W>)
  {
    && |s.requestSlot| == SLOT_BYTES && |s.responseSlot| == SLOT_BYTES
    && s.requestBytes <= SLOT_BYTES
    && (forall i :: 0 <= i < |s.issued| ==> |s.issued[i]| <= SLOT_BYTES)
    && s.requestSequence == SequenceOf(s.requestCall)
    && s.responseSequence == SequenceOf(s.responseCall)
    && s.responseCall <= s.requestCall
    && (s.issued == [] ==> s.client.Idle? && s.requestCall == 0)
    && (s.issued != [] ==> s.requestCall == if Visible(s) then s.Calls() else s.Calls() - 1)
    && (Visible(s) ==> Holds(s.requestSlot, s.Message(), s.Calls()) && s.requestBytes == |s.Message()|)
    && (s.client.SlotReady? || s.client.BytesStored? ==> Holds(s.requestSlot, s.Message(), s.Calls()))
    && (s.client.BytesStored? ==> s.requestBytes == |s.Message()|)
  }

  /** The call the worker is on, when it has loaded one. */
  predicate OnCall(pc: WorkerPc)
  {
    !pc.Polling? && !pc.Signalled?
  }

  predicate HasReply(pc: WorkerPc)
  {
    pc.Replying? || pc.ReplyReady? || pc.ReplySized?
  }

  ghost predicate WorkerInv<W>(s: State<W>)
  {
    && (OnCall(s.worker) ==> s.responseCall <= s.worker.call <= s.requestCall)
    && (s.worker.Fetching? ==> |s.worker.got| <= s.worker.length <= SLOT_BYTES)
    && (s.worker.Fetching? && Visible(s) && s.worker.call == s.Calls() ==>
          s.worker.length == |s.Message()| && Prefix(s.worker.got, s.requestSlot))
    && (HasReply(s.worker) ==>
          && s.log != [] && s.log[|s.log| - 1].call == s.worker.call
          && s.log[|s.log| - 1].reply == s.worker.reply
          && |s.worker.reply| <= SLOT_BYTES
          && (Visible(s) && s.worker.call == s.Calls() ==> Answers(s.log, s.issued, |s.log|, s.Calls())))
    && (s.worker.ReplyReady? || s.worker.ReplySized? ==>
          Holds(s.responseSlot, s.worker.reply, |s.log|))
    && (s.worker.ReplySized? ==> s.responseBytes == |s.worker.reply|)
    && s.responseBytes <= SLOT_BYTES
  }

  /** Once the response sequence names the newest call, every published response
      byte was stored by a dispatch of exactly that request. */
  ghost predicate ResponseInv<W>(s: State<W>)
  {
    && (Visible(s) && s.responseCall == s.Calls() ==>
          AllAnswer(s.log, s.issued, s.responseSlot, s.responseBytes, s.Calls()))
    && (s.client.SequenceLoaded? ==>
          s.client.sequence == SequenceOf(s.client.call) && s.client.call <= s.responseCall)
    && (s.client.Reading? ==> |s.client.got| <= s.client.length <= SLOT_BYTES)
    && (s.client.Reading? && s.Calls() <= SEQUENCES ==>
          && s.responseCall == s.Calls()
          && AllAnswer(s.log, s.issued, s.client.got, |s.client.got|, s.Calls())
          && AllAnswer(s.log, s.issued, s.responseSlot, s.client.length, s.Calls()))
  }

  ghost predicate AcceptedInv<W>(s: State<W>)
  {
    forall i :: 0 <= i < |s.accepted| && s.accepted[i].call <= SEQUENCES ==>
      AllAnswer(s.log, s.issued, s.accepted[i].cells, |s.accepted[i].cells|, s.accepted[i].call)
  }

  ghost predicate Inv<W>(s: State<W>)
  {
    SharedInv(s) && WorkerInv(s) && ResponseInv(s) && AcceptedInv(s)
  }

  lemma AnswersStable(log: seq<Dispatch>, more: seq<Dispatch>, issued: seq<seq<byte>>, newer: seq<seq<byte>>)
    ensures forall d: nat, k: nat ::
              Answers(log, issued, d, k) ==> Answers(log + more, issued + newer, d, k)
  {
  }

  lemma BeginKeepsInv<W>(env: Env<W>, s: State<W>, m: seq<byte>)
    requires Inv(s) && Enabled(s, Begin(m))
    ensures Inv(Apply(env, s, Begin(m)))
  {
    AnswersStable(s.log, [], s.issued, [m]);
    assert s.log + [] == s.log;
  }

  lemma RequestKeepsInv<W>(env: Env<W>, s: State<W>, step: Step)
    requires Inv(s) && Enabled(s, step)
    requires step.StoreRequest? || step.RequestComplete? || step.StoreRequestBytes?
    ensures Inv(Apply(env, s, step))
  {
  }

  lemma PublishKeepsInv<W>(env: Env<W>, s: State<W>, step: Step)
    requires Inv(s) && Enabled(s, step)
    requires step.StoreRequestSequence? || step.SignalRequest? || step.TimeOut?
    ensures Inv(Apply(env, s, step))
  {
  }

  lemma WakeKeepsInv<W>(env: Env<W>, s: State<W>, step: Step)
    requires Inv(s) && Enabled(s, step)
    requires step.ReadResponseSignal? || step.LoadResponseSequence?
    ensures Inv(Apply(env, s, step))
  {
  }

  lemma CheckSequenceKeepsInv<W>(env: Env<W>, s: State<W>)
    requires Inv(s) && Enabled(s, LoadResponseBytes)
    ensures Inv(Apply(env, s, LoadResponseBytes))
  {
    var t := Apply(env, s, LoadResponseBytes);
    assert SharedInv(t) && WorkerInv(t);
    if s.client.sequence == SequenceOf(s.Calls()) && s.Calls() <= SEQUENCES {
      SequenceIdentifiesCall(s.client.call, s.Calls());
    }
  }

  lemma ReadKeepsInv<W>(env: Env<W>, s: State<W>, step: Step)
    requires Inv(s) && Enabled(s, step)
    requires step.ReadResponseByte? || step.Finish?
    ensures Inv(Apply(env, s, step))
  {
    if step.ReadResponseByte? && s.Calls() <= SEQUENCES {
      assert Answers(s.log, s.issued, s.responseSlot[|s.client.got|].writer, s.Calls());
    }
  }

  lemma WorkerLoadKeepsInv<W>(env: Env<W>, s: State<W>, step: Step)
    requires Inv(s) && Enabled(s, step)
    requires step.ReadRequestSignal? || step.LoadRequestSequence?
    ensures Inv(Apply(env, s, step))
  {
  }

  lemma WorkerFetchKeepsInv<W>(env: Env<W>, s: State<W>, step: Step)
    requires Inv(s) && Enabled(s, step)
    requires step.LoadRequestBytes? || step.FetchRequestByte?
    ensures Inv(Apply(env, s, step))
  {
  }

  lemma ServeKeepsInv<W(!new)>(env: Env<W>, s: State<W>)
    requires FitsSlot(env)
    requires Inv(s) && Enabled(s, Serve)
    ensures Inv(Apply(env, s, Serve))
  {
    var t := Apply(env, s, Serve);
    var more := [t.log[|s.log|]];
    AnswersStable(s.log, more, s.issued, []);
    assert s.issued + [] == s.issued && t.log == s.log + more;
    if Visible(s) && s.worker.call == s.Calls() {
      assert Values(s.worker.got) == s.Message();
    }
  }

  lemma StoreResponseKeepsInv<W>(env: Env<W>, s: State<W>, cells: seq<Cell>)
    requires Inv(s) && Enabled(s, StoreResponse(cells))
    ensures Inv(Apply(env, s, StoreResponse(cells)))
  {
    var t := Apply(env, s, StoreResponse(cells));
    if Visible(s) && s.responseCall == s.Calls() {
      assert s.worker.call == s.Calls() && Answers(s.log, s.issued, |s.log|, s.Calls());
      assert AllAnswer(t.log, t.issued, cells, t.responseBytes, t.Calls());
    }
  }

  lemma WorkerWriteKeepsInv<W>(env: Env<W>, s: State<W>, step: Step)
    requires Inv(s) && Enabled(s, step)
    requires step.ResponseComplete? || step.StoreResponseBytes?
    ensures Inv(Apply(env, s, step))
  {
  }

  lemma WorkerPublishKeepsInv<W>(env: Env<W>, s: State<W>, step: Step)
    requires Inv(s) && Enabled(s, step)
    requires step.StoreResponseSequence? || step.SignalResponse?
    ensures Inv(Apply(env, s, step))
  {
  }

  lemma StepKeepsInv<W(!new)>(env: Env<W>, s: State<W>, step: Step)
    requires FitsSlot(env)
    requires Inv(s) && Enabled(s, step)
    ensures Inv(Apply(env, s, step))
  {
    match step
    case Begin(m) => BeginKeepsInv(env, s, m);
    case StoreRequest(_) | RequestComplete | StoreRequestBytes => RequestKeepsInv(env, s, step);
    case StoreRequestSequence | SignalRequest | TimeOut => PublishKeepsInv(env, s, step);
    case ReadResponseSignal | LoadResponseSequence => WakeKeepsInv(env, s, step);
    case LoadResponseBytes => CheckSequenceKeepsInv(env, s);
    case ReadResponseByte | Finish => ReadKeepsInv(env, s, step);
    case ReadRequestSignal | LoadRequestSequence => WorkerLoadKeepsInv(env, s, step);
    case LoadRequestBytes | FetchRequestByte => WorkerFetchKeepsInv(env, s, step);
    case Serve => ServeKeepsInv(env, s);
    case StoreResponse(cells) => StoreResponseKeepsInv(env, s, cells);
    case ResponseComplete | StoreResponseBytes => WorkerWriteKeepsInv(env, s, step);
    case StoreResponseSequence | SignalResponse => WorkerPublishKeepsInv(env, s, step);
  }

  lemma {:induction false} ReachableInv<W(!new)>(env: Env<W>, steps: seq<Step>)
    requires FitsSlot(env) && Legal(env, steps)
    ensures Inv(After(env, steps))
    decreases |steps|
  {
    if steps != [] {
      var before := steps[..|steps| - 1];
      ReachableInv(env, before);
      StepKeepsInv(env, After(env, before), steps[|steps| - 1]);
    }
  }

  /** Main result for runs with timeouts.  Whatever was abandoned before and
      whatever signals are stale, each of the first 2^32 - 1 calls that `rpc`
      accepts got every byte of its response from a dispatch that loaded this
      call's sequence and ran on exactly this call's request. */
  lemma {:induction false} NoLateResponseAccepted<W(!new)>(env: Env<W>, steps: seq<Step>, i: nat)
    requires FitsSlot(env) && Legal(env, steps)
    requires i < |After(env, steps).accepted|
    requires After(env, steps).accepted[i].call <= SEQUENCES
    ensures var s := After(env, steps);
            AllAnswer(s.log, s.issued, s.accepted[i].cells, |s.accepted[i].cells|, s.accepted[i].call)
  {
    ReachableInv(env, steps);
  }

  // ----------------------------------------- runs in which no call times out

  /** Reference: the worker as a plain sequential server. */
  function StateAfter<W>(env: Env<W>, requests: seq<seq<byte>>): W
  {
    if requests == [] then env.init
    else env.serve(StateAfter(env, requests[..|requests| - 1]), requests[|requests| - 1]).0
  }

  /** The sequential server's reply to the last of these requests. */
  function ReplyAfter<W>(env: Env<W>, requests: seq<seq<byte>>): seq<byte>
    requires requests != []
  {
    env.serve(StateAfter(env, requests[..|requests| - 1]), requests[|requests| - 1]).1
  }

  /** Whether the newest call has been executed. */
  predicate Executed<W>(s: State<W>)
  {
    match s.client
    case Idle | Woken | SequenceLoaded(_, _) | Reading(_, _) => true
    case Waiting => s.responseSignals == 1 || HasReply(s.worker) || s.worker.ReplyPublished?
    case _ => false
  }

  /** Exactly one party holds the turn. */
  predicate TurnInv<W>(s: State<W>)
  {
    && (s.client.Waiting? ==>
          || (s.requestSignals == 1 && s.responseSignals == 0 && s.worker.Polling?)
          || (s.requestSignals == 0 && s.responseSignals == 0 && !s.worker.Polling?)
          || (s.requestSignals == 0 && s.responseSignals == 1 && s.worker.Polling?))
    && (!s.client.Waiting? ==> s.requestSignals == 0 && s.responseSignals == 0 && s.worker.Polling?)
    && (OnCall(s.worker) ==> s.worker.call == s.Calls())
  }

  /** The executions so far are those of the sequential server on the first
      |log| requests, in order. */
  ghost predicate LogMatches<W>(env: Env<W>, issued: seq<seq<byte>>, log: seq<Dispatch>, w: W)
  {
    && |log| <= |issued|
    && w == StateAfter(env, issued[..|log|])
    && forall i :: 0 <= i < |log| ==>
         log[i] == Dispatch(i + 1, issued[i], ReplyAfter(env, issued[..i + 1]))
  }

  ghost predicate LogInv<W>(env: Env<W>, s: State<W>)
  {
    && |s.log| == (if Executed(s) then s.Calls() else s.Calls() - 1)
    && LogMatches(env, s.issued, s.log, s.w)
  }

  /** A published reply waits untouched for the client. */
  ghost predicate ReplyInv<W>(s: State<W>)
  {
    && (s.worker.ReplyPublished? || s.responseSignals == 1 || s.client.Woken? || s.client.SequenceLoaded?
          || s.client.Reading? ==>
          && s.log != [] && s.responseCall == s.Calls()
          && Holds(s.responseSlot, s.log[|s.log| - 1].reply, |s.log|)
          && s.responseBytes == |s.log[|s.log| - 1].reply|)
    && (s.client.SequenceLoaded? ==> s.client.sequence == SequenceOf(s.Calls()))
    && (s.client.Reading? ==> s.client.length == s.responseBytes && Prefix(s.client.got, s.responseSlot))
  }

  /** The accepted responses are the replies of the first executions, in order. */
  ghost predicate ResultsMatch(accepted: seq<Acceptance>, log: seq<Dispatch>)
  {
    && |accepted| <= |log|
    && forall i :: 0 <= i < |accepted| ==>
         accepted[i].call == i + 1 && Values(accepted[i].cells) == log[i].reply
  }

  ghost predicate ResultsInv<W>(s: State<W>)
  {
    && |s.accepted| == (if s.client.Idle? then s.Calls() else s.Calls() - 1)
    && ResultsMatch(s.accepted, s.log)
  }

  ghost predicate SyncInv<W>(env: Env<W>, s: State<W>)
  {
    TurnInv(s) && LogInv(env, s) && ReplyInv(s) && ResultsInv(s) && s.refused == 0
  }

  lemma LogExtendsIssued<W>(env: Env<W>, issued: seq<seq<byte>>, log: seq<Dispatch>, w: W, m: seq<byte>)
    requires LogMatches(env, issued, log, w)
    ensures LogMatches(env, issued + [m], log, w)
  {
    assert (issued + [m])[..|log|] == issued[..|log|];
    forall i | 0 <= i < |log|
      ensures log[i] == Dispatch(i + 1, (issued + [m])[i], ReplyAfter(env, (issued + [m])[..i + 1]))
    {
      assert (issued + [m])[..i + 1] == issued[..i + 1];
    }
  }

  lemma {:induction false} LogExtendsServed<W>(env: Env<W>, issued: seq<seq<byte>>, log: seq<Dispatch>, w: W)
    requires LogMatches(env, issued, log, w)
    requires |log| < |issued|
    ensures var (w', reply) := env.serve(w, issued[|log|]);
            LogMatches(env, issued, log + [Dispatch(|log| + 1, issued[|log|], reply)], w')
  {
    var done := issued[..|log| + 1];
    assert done[..|done| - 1] == issued[..|log|];
    assert done[|done| - 1] == issued[|log|];
  }

  lemma BeginKeepsSync<W>(env: Env<W>, s: State<W>, m: seq<byte>)
    requires SyncInv(env, s) && Enabled(s, Begin(m))
    ensures SyncInv(env, Apply(env, s, Begin(m)))
  {
    LogExtendsIssued(env, s.issued, s.log, s.w, m);
  }

  lemma ServeKeepsSync<W>(env: Env<W>, s: State<W>)
    requires SharedInv(s) && WorkerInv(s)
    requires SyncInv(env, s) && Enabled(s, Serve)
    ensures SyncInv(env, Apply(env, s, Serve))
  {
    assert s.client.Waiting? && Visible(s);
    assert Values(s.worker.got) == s.Message();
    LogExtendsServed(env, s.issued, s.log, s.w);
    ResultsExtend(s.accepted, s.log, Apply(env, s, Serve).log[|s.log|]);
  }

  lemma ResultsExtend(accepted: seq<Acceptance>, log: seq<Dispatch>, d: Dispatch)
    requires ResultsMatch(accepted, log)
    ensures ResultsMatch(accepted, log + [d])
  {
  }

  lemma ResultsFinish(accepted: seq<Acceptance>, log: seq<Dispatch>, got: seq<Cell>, slot: seq<Cell>)
    requires ResultsMatch(accepted, log) && |log| == |accepted| + 1
    requires Prefix(got, slot) && |got| == |log[|accepted|].reply|
    requires Holds(slot, log[|accepted|].reply, |log|)
    ensures ResultsMatch(accepted + [Acceptance(|log|, got)], log)
  {
    assert Values(got) == log[|accepted|].reply;
  }

  lemma ReadKeepsSync<W>(env: Env<W>, s: State<W>, step: Step)
    requires SharedInv(s) && WorkerInv(s)
    requires SyncInv(env, s) && Enabled(s, step)
    requires step.LoadResponseBytes? || step.ReadResponseByte? || step.Finish?
    ensures SyncInv(env, Apply(env, s, step))
  {
    if step.Finish? {
      ResultsFinish(s.accepted, s.log, s.client.got, s.responseSlot);
    }
  }

  lemma RequestKeepsSync<W>(env: Env<W>, s: State<W>, step: Step)
    requires SharedInv(s)
    requires SyncInv(env, s) && Enabled(s, step)
    requires step.StoreRequest? || step.RequestComplete? || step.StoreRequestBytes? || step.StoreRequestSequence?
    ensures SyncInv(env, Apply(env, s, step))
  {
  }

  lemma SignalKeepsSync<W>(env: Env<W>, s: State<W>, step: Step)
    requires SharedInv(s)
    requires SyncInv(env, s) && Enabled(s, step)
    requires step.SignalRequest? || step.ReadResponseSignal? || step.LoadResponseSequence?
    ensures SyncInv(env, Apply(env, s, step))
  {
  }

  lemma WorkerWakeKeepsSync<W>(env: Env<W>, s: State<W>, step: Step)
    requires SharedInv(s)
    requires SyncInv(env, s) && Enabled(s, step)
    requires step.ReadRequestSignal? || step.LoadRequestSequence?
    ensures SyncInv(env, Apply(env, s, step))
  {
  }

  lemma WorkerFetchKeepsSync<W>(env: Env<W>, s: State<W>, step: Step)
    requires SyncInv(env, s) && Enabled(s, step)
    requires step.LoadRequestBytes? || step.FetchRequestByte?
    ensures SyncInv(env, Apply(env, s, step))
  {
  }

  lemma PublishReplyKeepsSync<W>(env: Env<W>, s: State<W>, step: Step)
    requires SharedInv(s) && WorkerInv(s)
    requires SyncInv(env, s) && Enabled(s, step)
    requires step.StoreResponseBytes? || step.StoreResponseSequence? || step.SignalResponse?
    ensures SyncInv(env, Apply(env, s, step))
  {
  }

  lemma WriteReplyKeepsSync<W>(env: Env<W>, s: State<W>, step: Step)
    requires SharedInv(s) && WorkerInv(s)
    requires SyncInv(env, s) && Enabled(s, step)
    requires step.StoreResponse? || step.ResponseComplete?
    ensures SyncInv(env, Apply(env, s, step))
  {
  }

  predicate ByClient(step: Step)
  {
    step.Begin? || step.StoreRequest? || step.RequestComplete? || step.StoreRequestBytes? || step.StoreRequestSequence?
    || step.SignalRequest? || step.TimeOut? || step.ReadResponseSignal? || step.LoadResponseSequence?
    || step.LoadResponseBytes? || step.ReadResponseByte? || step.Finish?
  }

  lemma ClientKeepsSync<W(!new)>(env: Env<W>, s: State<W>, step: Step)
    requires SharedInv(s) && WorkerInv(s) && ByClient(step)
    requires SyncInv(env, s) && Enabled(s, step) && step != TimeOut
    ensures SyncInv(env, Apply(env, s, step))
  {
    match step
    case Begin(m) => BeginKeepsSync(env, s, m);
    case SignalRequest | ReadResponseSignal | LoadResponseSequence => SignalKeepsSync(env, s, step);
    case LoadResponseBytes | ReadResponseByte | Finish => ReadKeepsSync(env, s, step);
    case _ => RequestKeepsSync(env, s, step);
  }

  lemma WorkerKeepsSync<W(!new)>(env: Env<W>, s: State<W>, step: Step)
    requires SharedInv(s) && WorkerInv(s) && !ByClient(step)
    requires SyncInv(env, s) && Enabled(s, step)
    ensures SyncInv(env, Apply(env, s, step))
  {
    match step
    case ReadRequestSignal | LoadRequestSequence => WorkerWakeKeepsSync(env, s, step);
    case LoadRequestBytes | FetchRequestByte => WorkerFetchKeepsSync(env, s, step);
    case Serve => ServeKeepsSync(env, s);
    case StoreResponse(_) | ResponseComplete => WriteReplyKeepsSync(env, s, step);
    case _ => PublishReplyKeepsSync(env, s, step);
  }

  lemma StepKeepsSync<W(!new)>(env: Env<W>, s: State<W>, step: Step)
    requires SharedInv(s) && WorkerInv(s)
    requires SyncInv(env, s) && Enabled(s, step) && step != TimeOut
    ensures SyncInv(env, Apply(env, s, step))
  {
    if ByClient(step) { ClientKeepsSync(env, s, step); } else { WorkerKeepsSync(env, s, step); }
  }

  lemma {:induction false} ReachableSync<W(!new)>(env: Env<W>, steps: seq<Step>)
    requires FitsSlot(env) && Legal(env, steps)
    requires TimeOut !in steps
    ensures SyncInv(env, After(env, steps))
    decreases |steps|
  {
    if steps != [] {
      var before := steps[..|steps| - 1];
      ReachableSync(env, before);
      ReachableInv(env, before);
      StepKeepsSync(env, After(env, before), steps[|steps| - 1]);
    }
  }

  predicate Busy(pc: WorkerPc)
  {
    !pc.Polling?
  }

  /** Main result without timeouts: in every interleaving the transport is race
      free, and it refines a plain procedure call on the sequential server.  No
      bound on the number of calls is needed. */
  lemma {:induction false} RefinesSequentialServer<W(!new)>(env: Env<W>, steps: seq<Step>)
    requires FitsSlot(env) && Legal(env, steps)
    requires TimeOut !in steps
    ensures var s := After(env, steps);
            // at most one of: request signal pending, worker busy, response signal pending
            && s.requestSignals + (if Busy(s.worker) then 1 else 0) + s.responseSignals <= 1
            // neither slot is written while the other side uses it
            && !((s.client.Writing? || s.client.SlotReady? || s.client.BytesStored?) && Busy(s.worker))
            && !(Busy(s.worker) && (s.client.Woken? || s.client.SequenceLoaded? || s.client.Reading?))
            // every request executed exactly once, in order, on its own bytes
            && s.Calls() - 1 <= |s.log| <= s.Calls()
            && (forall i :: 0 <= i < |s.log| ==> s.log[i].call == i + 1 && s.log[i].request == s.issued[i])
            // every returned call returned the sequential server's reply; none was refused
            && s.refused == 0
            && |s.accepted| == (if s.client.Idle? then s.Calls() else s.Calls() - 1)
            && (forall i :: 0 <= i < |s.accepted| ==>
                  && s.accepted[i].call == i + 1
                  && Values(s.accepted[i].cells) == ReplyAfter(env, s.issued[..i + 1]))
  {
    ReachableSync(env, steps);
  }

  /** How far a call is from returning: a phase and the work left in it. */
  ghost function Remaining<W>(s: State<W>): (nat, nat)
  {
    match s.client
    case Idle => (0, 0)
    case Writing => (20, if s.issued != [] && Holds(s.requestSlot, s.Message(), s.Calls()) then 0 else 1)
    case SlotReady => (19, 0)
    case BytesStored => (18, 0)
    case Published => (17, 0)
    case Waiting =>
      if s.responseSignals == 1 then (5, 0)
      else (match s.worker
            case Polling => (16, 0)
            case Signalled => (15, 0)
            case Loaded(_) => (14, 0)
            case Fetching(_, n, got) => (13, if |got| <= n then n - |got| else 0)
            case Replying(_, reply) => (9, if Holds(s.responseSlot, reply, |s.log|) then 0 else 1)
            case ReplyReady(_, _) => (8, 0)
            case ReplySized(_, _) => (7, 0)
            case ReplyPublished(_) => (6, 0))
    case Woken => (4, 0)
    case SequenceLoaded(_, _) => (3, 0)
    case Reading(n, got) => (1, if |got| <= n then n - |got| else 0)
  }

  predicate Less(a: (nat, nat), b: (nat, nat))
  {
    a.0 < b.0 || (a.0 == b.0 && a.1 < b.1)
  }

  ghost function Filled(slot: seq<Cell>, bytes: seq<byte>, writer: nat): (r: seq<Cell>)
    requires |bytes| <= |slot|
    ensures Holds(r, bytes, writer) && StoredBy(slot, r, writer)
  {
    seq(|slot|, i requires 0 <= i < |slot| => if i < |bytes| then Cell(bytes[i], writer) else slot[i])
  }

  /** The step that moves the worker, when it is the worker's turn. */
  ghost function WorkerMove<W>(s: State<W>): Step
    requires !HasReply(s.worker) || |s.worker.reply| <= |s.responseSlot|
  {
    match s.worker
    case Polling => ReadRequestSignal
    case Signalled => LoadRequestSequence
    case Loaded(_) => LoadRequestBytes
    case Fetching(_, n, got) => if |got| < n then FetchRequestByte else Serve
    case Replying(_, reply) =>
      if Holds(s.responseSlot, reply, |s.log|) then ResponseComplete
      else StoreResponse(Filled(s.responseSlot, reply, |s.log|))
    case ReplyReady(_, _) => StoreResponseBytes
    case ReplySized(_, _) => StoreResponseSequence
    case ReplyPublished(_) => SignalResponse
  }

  ghost function ClientMove<W>(s: State<W>): Step
    requires s.issued != [] && |s.Message()| <= |s.requestSlot|
  {
    match s.client
    case Idle | Waiting => ReadResponseSignal
    case Writing =>
      if Holds(s.requestSlot, s.Message(), s.Calls()) then RequestComplete
      else StoreRequest(Filled(s.requestSlot, s.Message(), s.Calls()))
    case SlotReady => StoreRequestBytes
    case BytesStored => StoreRequestSequence
    case Published => SignalRequest
    case Woken => LoadResponseSequence
    case SequenceLoaded(_, _) => LoadResponseBytes
    case Reading(n, got) => if |got| < n then ReadResponseByte else Finish
  }

  lemma WorkerMoves<W>(env: Env<W>, s: State<W>)
    requires SharedInv(s) && WorkerInv(s) && TurnInv(s)
    requires s.client.Waiting? && s.responseSignals == 0
    ensures Enabled(s, WorkerMove(s))
    ensures Less(Remaining(Apply(env, s, WorkerMove(s))), Remaining(s))
  {
  }

  lemma ClientMoves<W>(env: Env<W>, s: State<W>)
    requires SharedInv(s) && WorkerInv(s) && ResponseInv(s) && TurnInv(s) && ReplyInv(s)
    requires !s.client.Idle? && (s.client.Waiting? ==> s.responseSignals == 1)
    ensures Enabled(s, ClientMove(s))
    ensures Less(Remaining(Apply(env, s, ClientMove(s))), Remaining(s))
  {
  }

  /** Without timeouts the transport never deadlocks or spins: from every
      reachable state a call in progress has a step that brings it strictly
      closer to returning. */
  lemma CallCanComplete<W(!new)>(env: Env<W>, steps: seq<Step>) returns (step: Step)
    requires FitsSlot(env) && Legal(env, steps)
    requires TimeOut !in steps
    requires !After(env, steps).client.Idle?
    ensures step != TimeOut && Enabled(After(env, steps), step)
    ensures Less(Remaining(Apply(env, After(env, steps), step)), Remaining(After(env, steps)))
  {
    ReachableInv(env, steps);
    ReachableSync(env, steps);
    step := NextMove(env, After(env, steps));
  }

  /** Whoever has the turn can move, and brings the call closer to returning. */
  lemma NextMove<W>(env: Env<W>, s: State<W>) returns (step: Step)
    requires SharedInv(s) && WorkerInv(s) && ResponseInv(s) && TurnInv(s) && ReplyInv(s) && !s.client.Idle?
    ensures step != TimeOut && Enabled(s, step)
    ensures Less(Remaining(Apply(env, s, step)), Remaining(s))
  {
    if s.client.Waiting? && s.responseSignals == 0 {
      WorkerMoves(env, s);
      step := WorkerMove(s);
    } else {
      ClientMoves(env, s);
      step := ClientMove(s);
    }
  }
}
