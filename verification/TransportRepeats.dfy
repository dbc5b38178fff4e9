/** How often the worker runs a request when calls may time out: exactly when the next
    request can be run twice, what each call's own sequence can cause, and how little
    it takes. */
module TransportRepeats {
  import opened Bytes
  import opened Transport

  // ------------------------------------------------- runs from any state onwards

  ghost predicate LegalFrom<W>(env: Env<W>, o: State<W>, steps: seq<Step>)
    decreases |steps|, 0
  {
    steps == [] ||
    (var before := steps[..|steps| - 1];
     LegalFrom(env, o, before) && Enabled(AfterFrom(env, o, before), steps[|steps| - 1]))
  }

  ghost function AfterFrom<W>(env: Env<W>, o: State<W>, steps: seq<Step>): State<W>
    requires LegalFrom(env, o, steps)
    decreases |steps|, 1
  {
    if steps == [] then o else Apply(env, AfterFrom(env, o, steps[..|steps| - 1]), steps[|steps| - 1])
  }

  ghost predicate Reaches<W>(env: Env<W>, o: State<W>, s: State<W>)
  {
    exists steps: seq<Step> :: LegalFrom(env, o, steps) && AfterFrom(env, o, steps) == s
  }

  ghost predicate Reachable<W>(env: Env<W>, s: State<W>)
  {
    exists steps: seq<Step> :: Legal(env, steps) && After(env, steps) == s
  }

  lemma Take<W>(env: Env<W>, o: State<W>, s: State<W>, step: Step) returns (t: State<W>)
    requires Reaches(env, o, s) && Enabled(s, step)
    ensures Reaches(env, o, t) && t == Apply(env, s, step)
  {
    var steps: seq<Step> :| LegalFrom(env, o, steps) && AfterFrom(env, o, steps) == s;
    var more := steps + [step];
    assert more[..|more| - 1] == steps;
    t := Apply(env, s, step);
    assert LegalFrom(env, o, more) && AfterFrom(env, o, more) == t;
  }

  lemma Stay<W>(env: Env<W>, o: State<W>)
    ensures Reaches(env, o, o)
  {
    assert LegalFrom(env, o, []) && AfterFrom(env, o, []) == o;
  }

  /** A run from a reachable state stays within the invariant. */
  lemma {:induction false} InvFrom<W(!new)>(env: Env<W>, o: State<W>, steps: seq<Step>)
    requires FitsSlot(env) && Inv(o) && LegalFrom(env, o, steps)
    ensures Inv(AfterFrom(env, o, steps))
    decreases |steps|
  {
    if steps != [] {
      InvFrom(env, o, steps[..|steps| - 1]);
      StepKeepsInv(env, AfterFrom(env, o, steps[..|steps| - 1]), steps[|steps| - 1]);
    }
  }

  lemma ReachableIsInv<W(!new)>(env: Env<W>, s: State<W>)
    requires FitsSlot(env) && Reachable(env, s)
    ensures Inv(s)
  {
    var steps: seq<Step> :| Legal(env, steps) && After(env, steps) == s;
    ReachableInv(env, steps);
  }

  lemma {:induction false} ReachesReachable<W>(env: Env<W>, steps: seq<Step>)
    requires LegalFrom(env, Init(env), steps)
    ensures Legal(env, steps) && After(env, steps) == AfterFrom(env, Init(env), steps)
    decreases |steps|
  {
    if steps != [] { ReachesReachable(env, steps[..|steps| - 1]); }
  }

  // ------------------------------------- every run: how often a call is executed

  predicate Holding(pc: WorkerPc)
  {
    pc.Loaded? || pc.Fetching?
  }

  /** The newest call has not been signalled yet. */
  predicate Unsent(pc: ClientPc)
  {
    pc.Writing? || pc.SlotReady? || pc.BytesStored? || pc.Published?
  }

  function One(b: bool): nat
  {
    if b then 1 else 0
  }

  /** Executions are in call order, and each has used up a signal of its own. */
  ghost predicate OrderInv<W>(s: State<W>)
  {
    && (forall i, j :: 0 <= i < j < |s.log| ==> s.log[i].call <= s.log[j].call)
    && (forall i :: 0 <= i < |s.log| ==> s.log[i].call <= s.requestCall)
    && (Holding(s.worker) ==> forall i :: 0 <= i < |s.log| ==> s.log[i].call <= s.worker.call)
    && |s.log| + One(Holding(s.worker)) + One(s.worker.Signalled?) + s.requestSignals + One(Unsent(s.client)) <= s.Calls()
  }

  lemma StepKeepsOrder<W>(env: Env<W>, s: State<W>, step: Step)
    requires SharedInv(s) && WorkerInv(s) && OrderInv(s) && Enabled(s, step)
    ensures OrderInv(Apply(env, s, step))
  {
    if step.Serve? { ServeKeepsOrder(env, s); }
  }

  lemma ServeKeepsOrder<W>(env: Env<W>, s: State<W>)
    requires WorkerInv(s) && OrderInv(s) && Enabled(s, Serve)
    ensures OrderInv(Apply(env, s, Serve))
  {
  }

  /** In every run, timeouts included: no more executions than calls, in the order of
      the calls.  So each repeated execution of a call has cost an earlier call its own. */
  lemma {:induction false} ExecutionsInOrder<W(!new)>(env: Env<W>, steps: seq<Step>)
    requires FitsSlot(env) && Legal(env, steps)
    ensures OrderInv(After(env, steps)) && |After(env, steps).log| <= After(env, steps).Calls()
    decreases |steps|
  {
    if steps != [] {
      var before := steps[..|steps| - 1];
      ExecutionsInOrder(env, before);
      ReachableInv(env, before);
      StepKeepsOrder(env, After(env, before), steps[|steps| - 1]);
    }
  }

  /** How many dispatches loaded call k's sequence. */
  function Times(log: seq<Dispatch>, k: nat): nat
  {
    if log == [] then 0 else Times(log[..|log| - 1], k) + One(log[|log| - 1].call == k)
  }

  /** Executions of call k, done and still possible. */
  function Chances<W>(s: State<W>, k: nat): nat
  {
    Times(s.log, k) + One(Holding(s.worker) && s.worker.call == k)
    + (if s.requestCall <= k then s.requestSignals + One(s.worker.Signalled?) else 0)
    + One(s.Calls() == k && Unsent(s.client))
  }

  /** Before call k begins nothing can execute it; afterwards at most one thing can. */
  ghost predicate OnceInv<W>(s: State<W>, k: nat)
  {
    && s.Calls() >= k - 1
    && (s.Calls() == k - 1 ==> s.client.Idle? && Chances(s, k) == 0)
    && Chances(s, k) <= 1
  }

  lemma {:induction false} ClientKeepsOnce<W>(env: Env<W>, s: State<W>, step: Step, k: nat)
    requires k > 0 && SharedInv(s) && OnceInv(s, k) && Enabled(s, step) && ByClient(step)
    ensures OnceInv(Apply(env, s, step), k)
  {
  }

  lemma {:induction false} WorkerKeepsOnce<W>(env: Env<W>, s: State<W>, step: Step, k: nat)
    requires k > 0 && SharedInv(s) && WorkerInv(s) && OnceInv(s, k) && Enabled(s, step) && !ByClient(step)
    ensures OnceInv(Apply(env, s, step), k)
  {
    var t := Apply(env, s, step);
    if step.Serve? { assert t.log[..|s.log|] == s.log; }
  }

  lemma {:induction false} StepKeepsOnce<W>(env: Env<W>, s: State<W>, step: Step, k: nat)
    requires k > 0 && SharedInv(s) && WorkerInv(s) && OnceInv(s, k) && Enabled(s, step)
    ensures OnceInv(Apply(env, s, step), k)
  {
    if ByClient(step) { ClientKeepsOnce(env, s, step, k); } else { WorkerKeepsOnce(env, s, step, k); }
  }

  lemma {:induction false} NeverDispatched(log: seq<Dispatch>, k: nat)
    requires forall i :: 0 <= i < |log| ==> log[i].call < k
    ensures Times(log, k) == 0
    decreases |log|
  {
    if log != [] { NeverDispatched(log[..|log| - 1], k); }
  }

  lemma {:induction false} OnceFrom<W(!new)>(env: Env<W>, o: State<W>, steps: seq<Step>, k: nat)
    requires FitsSlot(env) && Inv(o) && k > 0 && OnceInv(o, k) && LegalFrom(env, o, steps)
    ensures OnceInv(AfterFrom(env, o, steps), k)
    decreases |steps|
  {
    if steps != [] {
      var before := steps[..|steps| - 1];
      OnceFrom(env, o, before, k);
      InvFrom(env, o, before);
      StepKeepsOnce(env, AfterFrom(env, o, before), steps[|steps| - 1], k);
    }
  }

  /** A wake-up of the worker that no call in progress accounts for. */
  predicate StaleWakeUp<W>(s: State<W>)
  {
    s.requestSignals > 0 || s.worker.Signalled?
  }

  lemma QuietIsOnce<W>(o: State<W>)
    requires Inv(o) && OrderInv(o) && o.client.Idle? && !StaleWakeUp(o)
    ensures OnceInv(o, o.Calls() + 1)
  {
    NeverDispatched(o.log, o.Calls() + 1);
  }

  lemma ReachableIsOrdered<W(!new)>(env: Env<W>, s: State<W>)
    requires FitsSlot(env) && Reachable(env, s)
    ensures Inv(s) && OrderInv(s)
  {
    ReachableIsInv(env, s);
    var steps: seq<Step> :| Legal(env, steps) && After(env, steps) == s;
    ExecutionsInOrder(env, steps);
  }

  /** A call begun while no stale wake-up is about is dispatched under its own sequence
      at most once, whatever follows: timeouts, further calls, stale responses. */
  lemma AtMostOnceFromQuiet<W(!new)>(env: Env<W>, o: State<W>, steps: seq<Step>)
    requires FitsSlot(env) && Reachable(env, o) && o.client.Idle? && !StaleWakeUp(o)
    requires LegalFrom(env, o, steps)
    ensures Times(AfterFrom(env, o, steps).log, o.Calls() + 1) <= 1
  {
    ReachableIsOrdered(env, o);
    QuietIsOnce(o);
    OnceFrom(env, o, steps, o.Calls() + 1);
  }

  // ------------------------------------------- what a timeout can still break

  lemma Publish<W>(env: Env<W>, o: State<W>, s: State<W>, m: seq<byte>) returns (t: State<W>)
    requires Reaches(env, o, s) && s.client.Idle? && |m| <= SLOT_BYTES == |s.requestSlot|
    ensures Reaches(env, o, t)
    ensures t == s.(issued := s.issued + [m], client := Waiting, requestBytes := |m|,
                    requestSlot := Filled(s.requestSlot, m, s.Calls() + 1),
                    requestSequence := SequenceOf(s.Calls() + 1), requestCall := s.Calls() + 1,
                    requestSignals := s.requestSignals + 1)
  {
    t := Take(env, o, s, Begin(m));
    t := Take(env, o, t, StoreRequest(Filled(s.requestSlot, m, s.Calls() + 1)));
    t := Take(env, o, t, RequestComplete);
    t := Take(env, o, t, StoreRequestBytes);
    t := Take(env, o, t, StoreRequestSequence);
    t := Take(env, o, t, SignalRequest);
  }

  /** The worker fetches the rest of the request. */
  lemma {:induction false} FetchAll<W>(env: Env<W>, o: State<W>, s: State<W>) returns (t: State<W>)
    requires Reaches(env, o, s) && s.worker.Fetching? && |s.worker.got| <= s.worker.length <= |s.requestSlot|
    ensures Reaches(env, o, t) && t.worker.Fetching? && |t.worker.got| == t.worker.length
    ensures t == s.(worker := t.worker) && t.worker.call == s.worker.call && t.worker.length == s.worker.length
    ensures s.worker.got == s.requestSlot[..|s.worker.got|] ==> t.worker.got == s.requestSlot[..s.worker.length]
    decreases s.worker.length - |s.worker.got|
  {
    t := s;
    if |s.worker.got| < s.worker.length {
      t := Take(env, o, s, FetchRequestByte);
      assert s.requestSlot[..|s.worker.got| + 1] == s.requestSlot[..|s.worker.got|] + [s.requestSlot[|s.worker.got|]];
      t := FetchAll(env, o, t);
    }
  }

  /** Only the worker's side of the shared page and the response changed. */
  predicate RequestSideKept<W>(s: State<W>, t: State<W>)
  {
    && t.issued == s.issued && t.client == s.client
    && t.timeouts == s.timeouts && t.accepted == s.accepted && t.refused == s.refused
    && t.requestSlot == s.requestSlot && t.requestBytes == s.requestBytes && t.requestCall == s.requestCall
    && t.requestSignals == s.requestSignals && |t.responseSlot| == |s.responseSlot|
  }

  /** The worker has published a reply under this call's sequence and signalled it. */
  predicate Replied<W>(s: State<W>, call: nat)
  {
    && s.worker.Polling? && s.responseSignals > 0 && s.responseBytes <= |s.responseSlot|
    && s.responseCall == call && s.responseSequence == SequenceOf(call)
  }

  lemma Answer<W>(env: Env<W>, o: State<W>, s: State<W>) returns (t: State<W>)
    requires Reaches(env, o, s) && HasReply(s.worker) && |s.worker.reply| <= |s.responseSlot|
    requires s.worker.ReplyReady? || s.worker.ReplySized? ==> Holds(s.responseSlot, s.worker.reply, |s.log|)
    requires s.worker.ReplySized? ==> s.responseBytes == |s.worker.reply|
    ensures Reaches(env, o, t) && Replied(t, s.worker.call) && t.log == s.log && RequestSideKept(s, t)
  {
    t := s;
    if t.worker.Replying? {
      t := Take(env, o, t, StoreResponse(Filled(s.responseSlot, s.worker.reply, |s.log|)));
      t := Take(env, o, t, ResponseComplete);
    }
    t := AnswerReady(env, o, t);
  }

  lemma AnswerReady<W>(env: Env<W>, o: State<W>, s: State<W>) returns (t: State<W>)
    requires Reaches(env, o, s) && (s.worker.ReplyReady? || s.worker.ReplySized?) && |s.worker.reply| <= |s.responseSlot|
    requires s.worker.ReplySized? ==> s.responseBytes == |s.worker.reply|
    ensures Reaches(env, o, t) && Replied(t, s.worker.call) && t.log == s.log && RequestSideKept(s, t)
  {
    t := s;
    if t.worker.ReplyReady? { t := Take(env, o, t, StoreResponseBytes); }
    t := Take(env, o, t, StoreResponseSequence);
    t := Take(env, o, t, SignalResponse);
  }

  /** A complete fetch is served and answered. */
  lemma ServeAndAnswer<W(!new)>(env: Env<W>, o: State<W>, s: State<W>) returns (t: State<W>)
    requires FitsSlot(env) && Reaches(env, o, s) && |s.responseSlot| == SLOT_BYTES
    requires s.worker.Fetching? && |s.worker.got| == s.worker.length
    ensures Reaches(env, o, t) && Replied(t, s.worker.call) && RequestSideKept(s, t)
    ensures |t.log| == |s.log| + 1 && t.log[..|s.log|] == s.log
    ensures t.log[|s.log|].call == s.worker.call && t.log[|s.log|].request == Values(s.worker.got)
  {
    t := Take(env, o, s, Serve);
    t := Answer(env, o, t);
  }

  /** From `Loaded` on the worker runs what the slot holds, under the call it loaded. */
  lemma ExecuteSlot<W(!new)>(env: Env<W>, o: State<W>, s: State<W>, m: seq<byte>, writer: nat) returns (t: State<W>)
    requires FitsSlot(env) && Reaches(env, o, s) && |s.requestSlot| == SLOT_BYTES == |s.responseSlot|
    requires s.worker.Loaded? && s.requestBytes == |m| <= SLOT_BYTES && Holds(s.requestSlot, m, writer)
    ensures Reaches(env, o, t) && Replied(t, s.worker.call) && RequestSideKept(s, t)
    ensures |t.log| == |s.log| + 1 && t.log[..|s.log|] == s.log
    ensures t.log[|s.log|].call == s.worker.call && t.log[|s.log|].request == m
  {
    t := Take(env, o, s, LoadRequestBytes);
    t := FetchAll(env, o, t);
    assert Values(s.requestSlot[..|m|]) == m;
    t := ServeAndAnswer(env, o, t);
  }

  lemma ExecuteWoken<W(!new)>(env: Env<W>, o: State<W>, s: State<W>, m: seq<byte>, writer: nat) returns (t: State<W>)
    requires FitsSlot(env) && Reaches(env, o, s) && |s.requestSlot| == SLOT_BYTES == |s.responseSlot|
    requires s.worker.Signalled? && s.requestBytes == |m| <= SLOT_BYTES && Holds(s.requestSlot, m, writer)
    ensures Reaches(env, o, t) && Replied(t, s.requestCall) && RequestSideKept(s, t)
    ensures |t.log| == |s.log| + 1 && t.log[..|s.log|] == s.log
    ensures t.log[|s.log|].call == s.requestCall && t.log[|s.log|].request == m
  {
    t := Take(env, o, s, LoadRequestSequence);
    t := ExecuteSlot(env, o, t, m, writer);
  }

  /** Whatever a worker that is not about to load a sequence is doing, it can finish. */
  lemma ToPolling<W(!new)>(env: Env<W>, o: State<W>, s: State<W>) returns (t: State<W>)
    requires FitsSlot(env) && Reaches(env, o, s) && Inv(s) && !s.worker.Signalled?
    ensures Reaches(env, o, t) && t.worker.Polling? && RequestSideKept(s, t)
    ensures |s.log| <= |t.log| && t.log[..|s.log|] == s.log
    ensures if s.worker.Polling? then t == s else t.responseSignals > 0
  {
    t := s;
    if t.worker.Loaded? { t := Take(env, o, t, LoadRequestBytes); }
    if t.worker.Fetching? {
      t := FetchAll(env, o, t);
      t := ServeAndAnswer(env, o, t);
    } else if HasReply(t.worker) {
      t := Answer(env, o, t);
    } else if t.worker.ReplyPublished? {
      t := Take(env, o, t, SignalResponse);
    }
  }

  /** Dispatches n and n + 1, the last two, both ran message m as call k. */
  predicate LastTwice(log: seq<Dispatch>, m: seq<byte>, k: nat)
  {
    var n := |log|;
    n >= 2 && log[n - 2].call == k == log[n - 1].call && log[n - 2].request == m == log[n - 1].request
  }

  lemma LastTwiceCounts(log: seq<Dispatch>, m: seq<byte>, k: nat)
    requires LastTwice(log, m, k)
    ensures Times(log, k) >= 2
  {
    var front := log[..|log| - 1];
    assert front[|front| - 1] == log[|log| - 2];
  }

  /** The worker awake for nothing, and a new call published. */
  lemma WakeStale<W(!new)>(env: Env<W>, s: State<W>) returns (t: State<W>)
    requires FitsSlot(env) && Inv(s) && s.client.Idle? && StaleWakeUp(s)
    ensures Reaches(env, s, t) && t.worker.Signalled? && t.client.Idle? && t.issued == s.issued
    ensures |s.log| <= |t.log|
    ensures |t.requestSlot| == SLOT_BYTES == |t.responseSlot|
  {
    Stay(env, s);
    t := s;
    if !s.worker.Signalled? {
      t := ToPolling(env, s, s);
      t := Take(env, s, t, ReadRequestSignal);
    }
  }

  /** From every state with a stale wake-up, the next call, whatever its message, can be
      executed twice on exactly that message. */
  lemma StaleWakeUpRepeats<W(!new)>(env: Env<W>, s: State<W>, m: seq<byte>) returns (t: State<W>)
    requires FitsSlot(env) && Inv(s) && s.client.Idle? && StaleWakeUp(s) && |m| <= SLOT_BYTES
    ensures Reaches(env, s, t) && t.issued == s.issued + [m]
    ensures LastTwice(t.log, m, s.Calls() + 1) && Times(t.log, s.Calls() + 1) >= 2
    ensures |t.log| >= |s.log| + 2
  {
    var k := s.Calls() + 1;
    t := WakeStale(env, s);
    t := Publish(env, s, t, m);
    t := ExecuteTwice(env, s, t, m, k);
    LastTwiceCounts(t.log, m, k);
  }

  /** A woken worker with one more signal pending runs what the slot holds twice. */
  lemma ExecuteTwice<W(!new)>(env: Env<W>, o: State<W>, s: State<W>, m: seq<byte>, k: nat) returns (t: State<W>)
    requires FitsSlot(env) && Reaches(env, o, s) && |s.requestSlot| == SLOT_BYTES == |s.responseSlot|
    requires s.worker.Signalled? && s.requestSignals > 0 && s.requestCall == k
    requires s.requestBytes == |m| <= SLOT_BYTES && Holds(s.requestSlot, m, k)
    ensures Reaches(env, o, t) && t.issued == s.issued && |t.log| == |s.log| + 2 && LastTwice(t.log, m, k)
  {
    t := ExecuteWoken(env, o, s, m, k);
    var n := |t.log|;
    assert t.log[n - 1].call == k && t.log[n - 1].request == m;
    t := Take(env, o, t, ReadRequestSignal);
    t := ExecuteWoken(env, o, t, m, k);
    assert t.log[n - 1] == t.log[..n][n - 1];
  }

  /** From every reachable state with an idle client, the next call can be dispatched
      twice under its own sequence if and only if a stale wake-up is about: a pending
      request signal, or a worker that has read one and not yet loaded a sequence. */
  lemma SequenceRepeatsIff<W(!new)>(env: Env<W>, s: State<W>)
    requires FitsSlot(env) && Reachable(env, s) && s.client.Idle?
    ensures (exists t :: Reaches(env, s, t) && Times(t.log, s.Calls() + 1) > 1) <==> StaleWakeUp(s)
  {
    ReachableIsInv(env, s);
    if StaleWakeUp(s) {
      var t := StaleWakeUpRepeats(env, s, []);
    } else {
      forall t | Reaches(env, s, t) ensures Times(t.log, s.Calls() + 1) <= 1 {
        var steps: seq<Step> :| LegalFrom(env, s, steps) && AfterFrom(env, s, steps) == t;
        AtMostOnceFromQuiet(env, s, steps);
      }
    }
  }

  lemma InitReaches<W>(env: Env<W>, t: State<W>)
    requires Reaches(env, Init(env), t)
    ensures Reachable(env, t)
  {
    var steps: seq<Step> :| LegalFrom(env, Init(env), steps) && AfterFrom(env, Init(env), steps) == t;
    ReachesReachable(env, steps);
  }

  /** The first call, abandoned after the worker read its signal, or its sequence too. */
  lemma Abandon<W>(env: Env<W>, first: seq<byte>, loaded: bool) returns (s: State<W>)
    requires |first| <= SLOT_BYTES
    ensures Reaches(env, Init(env), s) && s.client.Idle? && s.issued == [first] && s.timeouts == 1 && s.log == []
    ensures s.requestSignals == 0 && |s.requestSlot| == SLOT_BYTES == |s.responseSlot|
    ensures s.worker == if loaded then Loaded(1) else Signalled
  {
    var o := Init(env);
    Stay(env, o);
    s := Publish(env, o, o, first);
    s := Take(env, o, s, ReadRequestSignal);
    if loaded { s := Take(env, o, s, LoadRequestSequence); }
    s := Take(env, o, s, TimeOut);
  }

  /** The second call's own signal, after the stale wake-up has served its message. */
  lemma OwnSignal<W(!new)>(env: Env<W>, o: State<W>, s: State<W>, m: seq<byte>) returns (t: State<W>)
    requires FitsSlot(env) && Reaches(env, o, s) && |s.requestSlot| == SLOT_BYTES == |s.responseSlot|
    requires s.worker.Polling? && s.requestSignals > 0 && |s.log| == 1
    requires s.requestBytes == |m| <= SLOT_BYTES && Holds(s.requestSlot, m, s.requestCall)
    ensures Reaches(env, o, t) && t.issued == s.issued && t.timeouts == s.timeouts
    ensures |t.log| == 2 && t.log[0] == s.log[0] && t.log[1].call == s.requestCall && t.log[1].request == m
  {
    t := Take(env, o, s, ReadRequestSignal);
    t := ExecuteWoken(env, o, t, m, s.requestCall);
    assert t.log[0] == t.log[..1][0];
  }

  /** It takes one timeout: for every worker and every two messages, the abandoned
      call's wake-up can serve the second message, whose own signal then serves it
      again; the first is never executed. */
  lemma OneTimeoutCanExecuteACallTwice<W(!new)>(env: Env<W>, first: seq<byte>, second: seq<byte>) returns (s: State<W>)
    requires FitsSlot(env) && |first| <= SLOT_BYTES && |second| <= SLOT_BYTES
    ensures Reachable(env, s)
    ensures s.timeouts == 1 && s.issued == [first, second]
    ensures |s.log| == 2 && LastTwice(s.log, second, 2)
  {
    var o := Init(env);
    s := Abandon(env, first, false);
    s := Publish(env, o, s, second);
    s := ExecuteWoken(env, o, s, second, 2);
    s := OwnSignal(env, o, s, second);
    InitReaches(env, s);
  }

  /** A worker that had already loaded the abandoned call's sequence when the next
      request was published runs the new bytes under the old sequence, and then again
      under their own: neither check of `rpc` sees the first execution. */
  lemma OldSequenceCanRunNewBytes<W(!new)>(env: Env<W>, first: seq<byte>, second: seq<byte>) returns (s: State<W>)
    requires FitsSlot(env) && |first| <= SLOT_BYTES && |second| <= SLOT_BYTES
    ensures Reachable(env, s)
    ensures s.timeouts == 1 && s.issued == [first, second] && |s.log| == 2
    ensures s.log[0].call == 1 && s.log[0].request == second
    ensures s.log[1].call == 2 && s.log[1].request == second
  {
    var o := Init(env);
    s := Abandon(env, first, true);
    s := Publish(env, o, s, second);
    s := ExecuteSlot(env, o, s, second, 2);
    s := OwnSignal(env, o, s, second);
    InitReaches(env, s);
  }

  // ------------------------------------ exactly when a request can be run twice

  /** Two dispatches since `o` ran request m, under whatever sequence. */
  ghost predicate RunTwice<W>(o: State<W>, t: State<W>, m: seq<byte>)
  {
    exists i, j :: |o.log| <= i < j < |t.log| && t.log[i].request == m == t.log[j].request
  }

  /** The worker is fetching, for an abandoned call, as many bytes as m has, and those it
      has fetched are m's. */
  predicate FetchesLike(pc: WorkerPc, m: seq<byte>)
  {
    && pc.Fetching? && pc.length == |m| && |pc.got| <= |m|
    && Values(pc.got) == m[..|pc.got|]
  }

  /** Leftovers of an abandoned call that will run the next request m. */
  predicate MayRepeat<W>(s: State<W>, m: seq<byte>)
  {
    StaleWakeUp(s) || s.worker.Loaded? || FetchesLike(s.worker, m)
  }

  /** Since `o`, one new call: each of its signals, and what the worker held at `o`, is
      good for one dispatch. */
  ghost predicate Budget<W>(o: State<W>, s: State<W>)
  {
    && |o.log| <= |s.log| && o.Calls() <= s.Calls() <= o.Calls() + 1
    && |s.log| + One(Holding(s.worker)) + One(s.worker.Signalled?) + s.requestSignals + One(Unsent(s.client))
       + One(s.Calls() == o.Calls()) <= |o.log| + 1 + One(Holding(o.worker))
  }

  /** What the worker was fetching at `o` is what its first dispatch since then runs. */
  ghost predicate FetchKept<W>(o: State<W>, s: State<W>)
  {
    o.worker.Fetching? && |o.log| <= |s.log| ==>
      var n, got := |o.log|, o.worker.got;
      && (|s.log| == n ==>
            && s.worker.Fetching? && s.worker.length == o.worker.length
            && |got| <= |s.worker.got| && s.worker.got[..|got|] == got)
      && (|s.log| > n ==>
            && |s.log[n].request| == o.worker.length && |got| <= |s.log[n].request|
            && s.log[n].request[..|got|] == Values(got))
  }

  lemma StepKeepsBudget<W>(env: Env<W>, o: State<W>, s: State<W>, step: Step)
    requires Budget(o, s) && Enabled(s, step) && Apply(env, s, step).Calls() <= o.Calls() + 1
    ensures Budget(o, Apply(env, s, step))
  {
  }

  lemma StepKeepsFetch<W>(env: Env<W>, o: State<W>, s: State<W>, step: Step)
    requires WorkerInv(s) && |o.log| <= |s.log| && FetchKept(o, s) && Enabled(s, step)
    ensures FetchKept(o, Apply(env, s, step))
  {
    if step.Serve? && o.worker.Fetching? && |s.log| == |o.log| {
      assert Values(s.worker.got)[..|o.worker.got|] == Values(o.worker.got);
    }
  }

  lemma CallsGrow<W>(env: Env<W>, s: State<W>, step: Step)
    requires Enabled(s, step)
    ensures s.Calls() <= Apply(env, s, step).Calls()
  {
  }

  lemma {:induction false} BudgetFrom<W(!new)>(env: Env<W>, o: State<W>, steps: seq<Step>)
    requires FitsSlot(env) && Inv(o) && o.client.Idle? && !StaleWakeUp(o)
    requires LegalFrom(env, o, steps) && AfterFrom(env, o, steps).Calls() <= o.Calls() + 1
    ensures Budget(o, AfterFrom(env, o, steps)) && FetchKept(o, AfterFrom(env, o, steps))
    decreases |steps|
  {
    if steps != [] {
      var before, step := steps[..|steps| - 1], steps[|steps| - 1];
      CallsGrow(env, AfterFrom(env, o, before), step);
      BudgetFrom(env, o, before);
      InvFrom(env, o, before);
      StepKeepsBudget(env, o, AfterFrom(env, o, before), step);
      StepKeepsFetch(env, o, AfterFrom(env, o, before), step);
    }
  }

  lemma BudgetForbidsTwice<W>(o: State<W>, t: State<W>, m: seq<byte>)
    requires Budget(o, t) && FetchKept(o, t) && WorkerInv(o) && !MayRepeat(o, m)
    ensures !RunTwice(o, t, m)
  {
    var n := |o.log|;
    forall i, j | n <= i < j < |t.log| ensures !(t.log[i].request == m == t.log[j].request) {
      assert i == n && o.worker.Fetching?;
    }
  }

  /** From a state without such leftovers the next request is run at most once until
      another call begins. */
  lemma RunAtMostOnce<W(!new)>(env: Env<W>, s: State<W>, t: State<W>, m: seq<byte>)
    requires FitsSlot(env) && Reachable(env, s) && s.client.Idle? && !MayRepeat(s, m)
    requires Reaches(env, s, t) && t.Calls() <= s.Calls() + 1
    ensures !RunTwice(s, t, m)
  {
    ReachableIsInv(env, s);
    var steps: seq<Step> :| LegalFrom(env, s, steps) && AfterFrom(env, s, steps) == t;
    BudgetFrom(env, s, steps);
    BudgetForbidsTwice(s, t, m);
  }

  /** After a first run of m by a leftover, the call's own signal runs it again. */
  lemma OwnSignalRunsAgain<W(!new)>(env: Env<W>, o: State<W>, s: State<W>, m: seq<byte>) returns (t: State<W>)
    requires FitsSlot(env) && Reaches(env, o, s) && |s.requestSlot| == SLOT_BYTES == |s.responseSlot|
    requires s.worker.Polling? && s.requestSignals > 0 && |o.log| < |s.log| && s.log[|s.log| - 1].request == m
    requires s.requestBytes == |m| <= SLOT_BYTES && Holds(s.requestSlot, m, s.requestCall)
    ensures Reaches(env, o, t) && t.issued == s.issued && RunTwice(o, t, m)
  {
    var n := |s.log|;
    t := Take(env, o, s, ReadRequestSignal);
    t := ExecuteWoken(env, o, t, m, s.requestCall);
    assert t.log[n - 1] == t.log[..n][n - 1] == s.log[n - 1];
    assert t.log[n].request == m;
  }

  lemma LoadedRepeats<W(!new)>(env: Env<W>, s: State<W>, m: seq<byte>) returns (t: State<W>)
    requires FitsSlot(env) && Inv(s) && s.client.Idle? && s.worker.Loaded? && |m| <= SLOT_BYTES
    ensures Reaches(env, s, t) && t.issued == s.issued + [m] && RunTwice(s, t, m)
  {
    Stay(env, s);
    t := Publish(env, s, s, m);
    t := ExecuteSlot(env, s, t, m, s.Calls() + 1);
    t := OwnSignalRunsAgain(env, s, t, m);
  }

  /** A fetch whose bytes so far are m's, continued from a slot that holds m, fetches m. */
  lemma {:induction false} FetchRest<W>(env: Env<W>, o: State<W>, s: State<W>, m: seq<byte>, writer: nat) returns (t: State<W>)
    requires Reaches(env, o, s) && FetchesLike(s.worker, m) && |m| <= |s.requestSlot| && Holds(s.requestSlot, m, writer)
    ensures Reaches(env, o, t) && t.worker.Fetching? && |t.worker.got| == t.worker.length && Values(t.worker.got) == m
    ensures t == s.(worker := t.worker)
    decreases |m| - |s.worker.got|
  {
    t := s;
    var n := |s.worker.got|;
    if n < |m| {
      t := Take(env, o, s, FetchRequestByte);
      assert Values(t.worker.got) == Values(s.worker.got) + [m[n]] == m[..n + 1];
      t := FetchRest(env, o, t, m, writer);
    } else {
      assert m[..n] == m;
    }
  }

  lemma FetchingRepeats<W(!new)>(env: Env<W>, s: State<W>, m: seq<byte>) returns (t: State<W>)
    requires FitsSlot(env) && Inv(s) && s.client.Idle? && FetchesLike(s.worker, m) && |m| <= SLOT_BYTES
    ensures Reaches(env, s, t) && t.issued == s.issued + [m] && RunTwice(s, t, m)
  {
    Stay(env, s);
    t := Publish(env, s, s, m);
    t := FetchRest(env, s, t, m, s.Calls() + 1);
    t := ServeAndAnswer(env, s, t);
    t := OwnSignalRunsAgain(env, s, t, m);
  }

  lemma LeftoverRepeats<W(!new)>(env: Env<W>, s: State<W>, m: seq<byte>) returns (t: State<W>)
    requires FitsSlot(env) && Inv(s) && s.client.Idle? && MayRepeat(s, m) && |m| <= SLOT_BYTES
    ensures Reaches(env, s, t) && t.issued == s.issued + [m] && RunTwice(s, t, m)
  {
    if StaleWakeUp(s) {
      t := StaleWakeUpRepeats(env, s, m);
      var n := |t.log|;
      assert t.log[n - 2].request == m == t.log[n - 1].request;
    } else if s.worker.Loaded? {
      t := LoadedRepeats(env, s, m);
    } else {
      t := FetchingRepeats(env, s, m);
    }
  }

  /** Main result on repeats.  From every reachable state with an idle client, whatever
      calls were abandoned before, the next request m can be run twice before another
      call begins if and only if the worker has a leftover of an abandoned call to spend
      on it: a wake-up not yet turned into a sequence, a sequence whose request length it
      has not loaded, or a fetch of as many bytes whose beginning is m's. */
  lemma RequestRunsTwiceIff<W(!new)>(env: Env<W>, s: State<W>, m: seq<byte>)
    requires FitsSlot(env) && Reachable(env, s) && s.client.Idle? && |m| <= SLOT_BYTES
    ensures (exists t :: Reaches(env, s, t) && t.issued == s.issued + [m] && RunTwice(s, t, m)) <==> MayRepeat(s, m)
  {
    if MayRepeat(s, m) {
      ReachableIsInv(env, s);
      var t := LeftoverRepeats(env, s, m);
    } else {
      forall t | Reaches(env, s, t) && t.issued == s.issued + [m] ensures !RunTwice(s, t, m) {
        RunAtMostOnce(env, s, t, m);
      }
    }
  }
}
