/** What the transport promises again after calls were abandoned: from a state whose
    leftovers cannot serve a new call, and for as long as calls return, each call is
    executed exactly once, on its own request, and gets its own reply. */
module TransportResumes {
  import opened Bytes
  import opened Transport
  import opened TransportRepeats

  /** Where the new calls begin: the calls so far, the log index of the first dispatch
      that serves a new call, and the responses accepted so far. */
  datatype Origin = Origin(calls: nat, first: nat, accepted: nat)

  /** A fetch in progress has one dispatch to come for an abandoned call. */
  function OriginOf<W>(o: State<W>): Origin
  {
    Origin(o.Calls(), |o.log| + One(o.worker.Fetching?), |o.accepted|)
  }

  /** Calls begun, and dispatches done, since the origin; -1: the old one is to come. */
  function Begun<W>(b: Origin, s: State<W>): int
  {
    s.Calls() - b.calls
  }

  function Done<W>(b: Origin, s: State<W>): int
  {
    |s.log| - b.first
  }

  /** Nothing is under way that would serve a new call. */
  predicate Resting<W>(b: Origin, s: State<W>)
  {
    !s.worker.Signalled? && !s.worker.Loaded? && (s.worker.Fetching? ==> Done(b, s) < 0)
  }

  /** k new calls have been served, and nothing more; the old dispatch may be to come
      while k is 0. */
  predicate Caught<W>(b: Origin, s: State<W>, k: int)
  {
    Done(b, s) == k || (k == 0 && Done(b, s) == -1)
  }

  predicate Awaits(pc: ClientPc)
  {
    pc.Waiting? || pc.Woken? || pc.SequenceLoaded?
  }

  /** The newest call is in exactly one of four places. */
  predicate Pending<W>(b: Origin, s: State<W>)
  {
    var c, d := Begun(b, s), Done(b, s);
    || (s.requestSignals == 1 && Resting(b, s) && Caught(b, s, c - 1))
    || (s.requestSignals == 0 && s.worker.Signalled? && d == c - 1)
    || (s.requestSignals == 0 && Holding(s.worker) && s.worker.call == s.Calls() && d == c - 1)
    || (s.requestSignals == 0 && Resting(b, s) && d == c)
  }

  predicate Turns<W>(b: Origin, s: State<W>)
  {
    var c, d := Begun(b, s), Done(b, s);
    && c >= 0 && d >= -1
    && (d < 0 ==> s.worker.Fetching? && s.worker.call <= b.calls)
    && (HasReply(s.worker) && d <= 0 ==> s.worker.call <= b.calls)
    && (s.client.Idle? ==> s.requestSignals == 0 && Resting(b, s) && Caught(b, s, c))
    && (Unsent(s.client) ==> c >= 1 && s.requestSignals == 0 && Resting(b, s) && Caught(b, s, c - 1))
    && (Awaits(s.client) ==> c >= 1 && Pending(b, s))
    && (s.client.Reading? ==> c >= 1 && s.requestSignals == 0 && Resting(b, s) && d == c)
  }

  /** Dispatch number i since the origin ran exactly the i-th new call. */
  ghost predicate Served(b: Origin, issued: seq<seq<byte>>, log: seq<Dispatch>)
  {
    forall i :: b.first <= i < |log| ==>
      var k := i - b.first + b.calls;
      k < |issued| && log[i].call == k + 1 && log[i].request == issued[k]
  }

  /** The last reply to a new call is in the slot, whole, unless the worker is writing. */
  ghost predicate SlotHolds<W>(b: Origin, s: State<W>)
  {
    Done(b, s) >= 1 && !HasReply(s.worker) ==>
      var last := s.log[|s.log| - 1].reply;
      Holds(s.responseSlot, last, |s.log|) && s.responseBytes == |last|
  }

  /** Replies published for new calls. */
  function Out<W>(b: Origin, s: State<W>): int
  {
    if Done(b, s) <= 0 then 0 else if HasReply(s.worker) then Done(b, s) - 1 else Done(b, s)
  }

  ghost predicate Reads<W>(b: Origin, s: State<W>)
  {
    s.client.Reading? && Done(b, s) >= 1 ==>
      && !HasReply(s.worker) && s.client.length == |s.log[|s.log| - 1].reply|
      && Prefix(s.client.got, s.responseSlot)
  }

  /** Every new call that returned got the reply of its own dispatch. */
  ghost predicate Returned(b: Origin, accepted: seq<Acceptance>, log: seq<Dispatch>)
  {
    forall i :: b.accepted <= i < |accepted| ==>
      var k := i - b.accepted + b.first;
      && k < |log| && accepted[i].call == i - b.accepted + b.calls + 1
      && Values(accepted[i].cells) == log[k].reply
  }

  ghost predicate ResumeInv<W>(b: Origin, s: State<W>)
  {
    && Turns(b, s) && Served(b, s.issued, s.log) && SlotHolds(b, s) && Reads(b, s)
    && s.responseCall <= b.calls + Out(b, s)
    && |s.accepted| == b.accepted + Begun(b, s) - One(!s.client.Idle?)
    && Returned(b, s.accepted, s.log)
  }

  lemma OriginResumes<W>(o: State<W>)
    requires Inv(o) && o.client.Idle? && !StaleWakeUp(o) && !o.worker.Loaded?
    ensures ResumeInv(OriginOf(o), o)
  {
  }

  // -------------------------------------------------------------------- the steps

  lemma BeginKeeps<W>(env: Env<W>, b: Origin, s: State<W>, m: seq<byte>)
    requires ResumeInv(b, s) && Enabled(s, Begin(m))
    ensures ResumeInv(b, Apply(env, s, Begin(m)))
  {
  }

  lemma SendKeeps<W>(env: Env<W>, b: Origin, s: State<W>, step: Step)
    requires SharedInv(s) && ResumeInv(b, s) && Enabled(s, step)
    requires step.StoreRequest? || step.RequestComplete? || step.StoreRequestBytes? || step.StoreRequestSequence?
          || step.SignalRequest?
    ensures ResumeInv(b, Apply(env, s, step))
  {
  }

  lemma WakeKeeps<W>(env: Env<W>, b: Origin, s: State<W>, step: Step)
    requires ResumeInv(b, s) && Enabled(s, step)
    requires step.ReadResponseSignal? || step.LoadResponseSequence?
    ensures ResumeInv(b, Apply(env, s, step))
  {
  }

  /** A response is let through only when the newest call has been answered. */
  lemma CheckKeeps<W>(env: Env<W>, b: Origin, s: State<W>)
    requires Inv(s) && ResumeInv(b, s) && Enabled(s, LoadResponseBytes) && s.Calls() <= SEQUENCES
    requires Apply(env, s, LoadResponseBytes).refused == s.refused
    ensures ResumeInv(b, Apply(env, s, LoadResponseBytes))
  {
    SequenceIdentifiesCall(s.client.call, s.Calls());
  }

  lemma ReadKeeps<W>(env: Env<W>, b: Origin, s: State<W>)
    requires Inv(s) && ResumeInv(b, s) && Enabled(s, ReadResponseByte)
    ensures ResumeInv(b, Apply(env, s, ReadResponseByte))
  {
  }

  lemma FinishKeeps<W>(env: Env<W>, b: Origin, s: State<W>)
    requires Inv(s) && ResumeInv(b, s) && Enabled(s, Finish)
    ensures ResumeInv(b, Apply(env, s, Finish))
  {
    var last := s.log[|s.log| - 1].reply;
    assert Values(s.client.got) == last;
  }

  lemma TakeUpKeeps<W>(env: Env<W>, b: Origin, s: State<W>, step: Step)
    requires Inv(s) && ResumeInv(b, s) && Enabled(s, step)
    requires step.ReadRequestSignal? || step.LoadRequestSequence? || step.LoadRequestBytes? || step.FetchRequestByte?
    ensures ResumeInv(b, Apply(env, s, step))
  {
  }

  lemma ServeKeeps<W>(env: Env<W>, b: Origin, s: State<W>)
    requires Inv(s) && ResumeInv(b, s) && Enabled(s, Serve)
    ensures ResumeInv(b, Apply(env, s, Serve))
  {
    if Done(b, s) >= 0 { assert Values(s.worker.got) == s.Message(); }
  }

  lemma WriteKeeps<W>(env: Env<W>, b: Origin, s: State<W>, step: Step)
    requires Inv(s) && ResumeInv(b, s) && Enabled(s, step)
    requires step.StoreResponse? || step.ResponseComplete? || step.StoreResponseBytes?
    ensures ResumeInv(b, Apply(env, s, step))
  {
  }

  lemma PublishKeeps<W>(env: Env<W>, b: Origin, s: State<W>, step: Step)
    requires Inv(s) && ResumeInv(b, s) && Enabled(s, step)
    requires step.StoreResponseSequence? || step.SignalResponse?
    ensures ResumeInv(b, Apply(env, s, step))
  {
  }

  lemma ClientStepKeeps<W>(env: Env<W>, b: Origin, s: State<W>, step: Step)
    requires Inv(s) && ResumeInv(b, s) && Enabled(s, step) && ByClient(step) && step != TimeOut
    requires step == LoadResponseBytes ==> s.Calls() <= SEQUENCES && Apply(env, s, step).refused == s.refused
    ensures ResumeInv(b, Apply(env, s, step))
  {
    match step
    case Begin(m) => BeginKeeps(env, b, s, m);
    case ReadResponseSignal | LoadResponseSequence => WakeKeeps(env, b, s, step);
    case LoadResponseBytes => CheckKeeps(env, b, s);
    case ReadResponseByte => ReadKeeps(env, b, s);
    case Finish => FinishKeeps(env, b, s);
    case _ => SendKeeps(env, b, s, step);
  }

  lemma WorkerStepKeeps<W>(env: Env<W>, b: Origin, s: State<W>, step: Step)
    requires Inv(s) && ResumeInv(b, s) && Enabled(s, step) && !ByClient(step)
    ensures ResumeInv(b, Apply(env, s, step))
  {
    match step
    case Serve => ServeKeeps(env, b, s);
    case StoreResponse(_) | ResponseComplete | StoreResponseBytes => WriteKeeps(env, b, s, step);
    case StoreResponseSequence | SignalResponse => PublishKeeps(env, b, s, step);
    case _ => TakeUpKeeps(env, b, s, step);
  }

  // ---------------------------------------------------------- the worker's state

  /** The requests dispatched from log index n on. */
  function Requests(log: seq<Dispatch>, n: nat): (r: seq<seq<byte>>)
    requires n <= |log|
    ensures |r| == |log| - n
  {
    seq(|log| - n, i requires 0 <= i < |log| - n => log[n + i].request)
  }

  /** The dispatcher of `o` onwards, as a sequential server. */
  function ServerAt<W>(env: Env<W>, o: State<W>): Env<W>
  {
    Env(env.serve, o.w)
  }

  /** From log index n on, the replies are those of the sequential server. */
  ghost predicate RepliesOf<W>(server: Env<W>, log: seq<Dispatch>, n: nat)
  {
    n <= |log| && forall i :: n <= i < |log| ==> log[i].reply == ReplyAfter(server, Requests(log, n)[..i - n + 1])
  }

  /** Since `o` the worker is the sequential server on the requests it dispatched. */
  ghost predicate Replays<W>(env: Env<W>, o: State<W>, s: State<W>)
  {
    RepliesOf(ServerAt(env, o), s.log, |o.log|) && s.w == StateAfter(ServerAt(env, o), Requests(s.log, |o.log|))
  }

  lemma RequestsSnoc(log: seq<Dispatch>, d: Dispatch, n: nat)
    requires n <= |log|
    ensures Requests(log + [d], n) == Requests(log, n) + [d.request]
  {
  }

  lemma RepliesSnoc<W>(server: Env<W>, log: seq<Dispatch>, d: Dispatch, n: nat)
    requires RepliesOf(server, log, n)
    requires d.reply == server.serve(StateAfter(server, Requests(log, n)), d.request).1
    ensures RepliesOf(server, log + [d], n)
    ensures StateAfter(server, Requests(log + [d], n)) == server.serve(StateAfter(server, Requests(log, n)), d.request).0
  {
    var before, after, more := Requests(log, n), Requests(log + [d], n), log + [d];
    RequestsSnoc(log, d, n);
    assert after[..|after| - 1] == before && after[..|after|] == after;
    forall i | n <= i < |more| ensures more[i].reply == ReplyAfter(server, after[..i - n + 1]) {
      if i < |log| { assert after[..i - n + 1] == before[..i - n + 1] && more[i] == log[i]; }
    }
  }

  lemma StepReplays<W>(env: Env<W>, o: State<W>, s: State<W>, step: Step)
    requires Replays(env, o, s) && Enabled(s, step)
    ensures Replays(env, o, Apply(env, s, step))
  {
    if step.Serve? {
      var request := Values(s.worker.got);
      RepliesSnoc(ServerAt(env, o), s.log, Dispatch(s.worker.call, request, env.serve(s.w, request).1), |o.log|);
    }
  }

  // -------------------------------------------------------------- the main result

  /** A state from which calls can be trusted again. */
  predicate Rested<W>(o: State<W>)
  {
    o.client.Idle? && !StaleWakeUp(o) && !o.worker.Loaded?
  }

  lemma Grow<W>(env: Env<W>, s: State<W>, step: Step)
    requires Enabled(s, step)
    ensures s.Calls() <= Apply(env, s, step).Calls() && s.refused <= Apply(env, s, step).refused
  {
  }

  lemma {:induction false} GrowFrom<W>(env: Env<W>, o: State<W>, steps: seq<Step>)
    requires LegalFrom(env, o, steps)
    ensures o.Calls() <= AfterFrom(env, o, steps).Calls() && o.refused <= AfterFrom(env, o, steps).refused
    decreases |steps|
  {
    if steps != [] {
      GrowFrom(env, o, steps[..|steps| - 1]);
      Grow(env, AfterFrom(env, o, steps[..|steps| - 1]), steps[|steps| - 1]);
    }
  }

  lemma {:induction false} ResumeFrom<W(!new)>(env: Env<W>, o: State<W>, steps: seq<Step>)
    requires FitsSlot(env) && Inv(o) && Rested(o) && LegalFrom(env, o, steps) && TimeOut !in steps
    requires AfterFrom(env, o, steps).refused == o.refused && AfterFrom(env, o, steps).Calls() <= SEQUENCES
    ensures ResumeInv(OriginOf(o), AfterFrom(env, o, steps))
    decreases |steps|
  {
    if steps == [] {
      OriginResumes(o);
    } else {
      var before, step := steps[..|steps| - 1], steps[|steps| - 1];
      var s := AfterFrom(env, o, before);
      GrowFrom(env, o, before);
      Grow(env, s, step);
      ResumeFrom(env, o, before);
      InvFrom(env, o, before);
      assert step in steps;
      if ByClient(step) { ClientStepKeeps(env, OriginOf(o), s, step); } else { WorkerStepKeeps(env, OriginOf(o), s, step); }
    }
  }

  lemma {:induction false} ReplaysFrom<W(!new)>(env: Env<W>, o: State<W>, steps: seq<Step>)
    requires FitsSlot(env) && Inv(o) && LegalFrom(env, o, steps)
    ensures Replays(env, o, AfterFrom(env, o, steps)) && FetchKept(o, AfterFrom(env, o, steps))
    decreases |steps|
  {
    if steps != [] {
      var before, step := steps[..|steps| - 1], steps[|steps| - 1];
      ReplaysFrom(env, o, before);
      InvFrom(env, o, before);
      StepReplays(env, o, AfterFrom(env, o, before), step);
      StepKeepsFetch(env, o, AfterFrom(env, o, before), step);
    }
  }

  /** What a stretch of returned calls since `o` looks like. */
  ghost predicate Resumed<W>(env: Env<W>, o: State<W>, t: State<W>)
  {
    var b := OriginOf(o);
    // each new call was executed once, in order, on its own request
    && b.first - 1 <= |t.log| <= b.first + t.Calls() - o.Calls()
    && Served(b, t.issued, t.log)
    // each one that returned got the reply of that execution
    && |t.accepted| == |o.accepted| + t.Calls() - o.Calls() - One(!t.client.Idle?)
    && Returned(b, t.accepted, t.log)
    // the worker is the sequential server, from the state it had
    && Replays(env, o, t)
  }

  /** The old request the worker was fetching is none that it was not fetching like. */
  ghost predicate OldIsOther<W>(o: State<W>, t: State<W>)
  {
    o.worker.Fetching? && |o.log| < |t.log| ==>
      forall m: seq<byte> :: !MayRepeat(o, m) ==> t.log[|o.log|].request != m
  }

  lemma ResumeMeans<W>(env: Env<W>, o: State<W>, t: State<W>)
    requires ResumeInv(OriginOf(o), t) && Replays(env, o, t)
    ensures Resumed(env, o, t)
  {
  }

  lemma OldMeans<W>(o: State<W>, t: State<W>)
    requires WorkerInv(o) && FetchKept(o, t)
    ensures OldIsOther(o, t)
  {
  }

  /** The i-th new call that returned: its dispatch, and the reply it got. */
  lemma ResumedCall<W>(env: Env<W>, o: State<W>, t: State<W>, i: nat)
    requires Resumed(env, o, t) && |o.accepted| + i < |t.accepted|
    ensures var k := OriginOf(o).first - |o.log| + i;
            && 0 <= k && |o.log| + k < |t.log| && o.Calls() + i < |t.issued|
            && Requests(t.log, |o.log|)[k] == t.issued[o.Calls() + i]
            && Values(t.accepted[|o.accepted| + i].cells) == ReplyAfter(ServerAt(env, o), Requests(t.log, |o.log|)[..k + 1])
  {
    var b := OriginOf(o);
    ServedOn(b, t.issued, t.accepted, t.log, i);
    ReplyOf(ServerAt(env, o), t.log, |o.log|, b.first + i);
  }

  lemma ServedOn(b: Origin, issued: seq<seq<byte>>, accepted: seq<Acceptance>, log: seq<Dispatch>, i: nat)
    requires Served(b, issued, log) && Returned(b, accepted, log) && b.accepted + i < |accepted|
    ensures b.first + i < |log| && b.calls + i < |issued| && log[b.first + i].request == issued[b.calls + i]
    ensures Values(accepted[b.accepted + i].cells) == log[b.first + i].reply
  {
    assert accepted[b.accepted + i].call == b.calls + i + 1;
    assert log[b.first + i].call == b.calls + i + 1;
  }

  lemma ReplyOf<W>(server: Env<W>, log: seq<Dispatch>, n: nat, j: nat)
    requires RepliesOf(server, log, n) && n <= j < |log|
    ensures Requests(log, n)[j - n] == log[j].request
    ensures log[j].reply == ReplyAfter(server, Requests(log, n)[..j - n + 1])
  {
  }

  /** Main result after timeouts: from every reachable state whose worker has neither a
      stale wake-up nor an abandoned sequence at hand, over every continuation in which no
      call times out or is refused, up to call 2^32 - 1: each new call is executed exactly
      once, in order and on its own request, after at most the one request the worker was
      fetching; it returns the reply of that execution; and that one old request is not
      the first new one unless the worker was already fetching like it. */
  lemma ResumesSequentialServer<W(!new)>(env: Env<W>, o: State<W>, steps: seq<Step>)
    requires FitsSlot(env) && Reachable(env, o) && Rested(o) && LegalFrom(env, o, steps) && TimeOut !in steps
    requires AfterFrom(env, o, steps).refused == o.refused && AfterFrom(env, o, steps).Calls() <= SEQUENCES
    ensures Resumed(env, o, AfterFrom(env, o, steps)) && OldIsOther(o, AfterFrom(env, o, steps))
  {
    ReachableIsInv(env, o);
    ResumeFrom(env, o, steps);
    ReplaysFrom(env, o, steps);
    ResumeMeans(env, o, AfterFrom(env, o, steps));
    OldMeans(o, AfterFrom(env, o, steps));
  }
}
