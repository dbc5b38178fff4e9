/** When `rpc` refuses a response after calls were abandoned, and that no refusal lasts:
    the check looks at this call's sequence only. */
module TransportRefusals {
  import opened Bytes
  import opened Transport
  import opened TransportRepeats
  import opened TransportResumes

  /** Something of an abandoned call is still on its way: a signal in either direction or
      a worker that is not waiting for one. */
  predicate Leftover<W>(s: State<W>)
  {
    s.requestSignals > 0 || s.responseSignals > 0 || !s.worker.Polling?
  }

  // ------------------------------------------------- from a state without leftovers

  /** The parties take turns, and a published reply is the newest call's. */
  ghost predicate TakingTurns<W>(s: State<W>)
  {
    TurnInv(s) && ReplyInv(s)
  }

  lemma RestKeepsTurns<W>(o: State<W>)
    requires o.client.Idle? && !Leftover(o)
    ensures TakingTurns(o)
  {
  }

  lemma SendKeepsTurns<W>(env: Env<W>, s: State<W>, step: Step)
    requires SharedInv(s) && WorkerInv(s) && TakingTurns(s) && Enabled(s, step) && ByClient(step) && step != TimeOut
    requires !step.LoadResponseBytes? && !step.ReadResponseByte? && !step.Finish?
    ensures TakingTurns(Apply(env, s, step)) && Apply(env, s, step).refused == s.refused
  {
  }

  /** The response is the newest call's own, so it is let through. */
  lemma ReadKeepsTurns<W>(env: Env<W>, s: State<W>, step: Step)
    requires SharedInv(s) && WorkerInv(s) && TakingTurns(s) && Enabled(s, step)
    requires step.LoadResponseBytes? || step.ReadResponseByte? || step.Finish?
    ensures TakingTurns(Apply(env, s, step)) && Apply(env, s, step).refused == s.refused
  {
  }

  lemma WorkKeepsTurns<W>(env: Env<W>, s: State<W>, step: Step)
    requires SharedInv(s) && WorkerInv(s) && TakingTurns(s) && Enabled(s, step) && !ByClient(step)
    ensures TakingTurns(Apply(env, s, step)) && Apply(env, s, step).refused == s.refused
  {
  }

  lemma CheckKeepsTurns<W>(env: Env<W>, b: Origin, s: State<W>)
    requires Inv(s) && ResumeInv(b, s) && TakingTurns(s) && Enabled(s, LoadResponseBytes)
    ensures ResumeInv(b, Apply(env, s, LoadResponseBytes))
  {
  }

  lemma StepKeepsTurns<W>(env: Env<W>, b: Origin, s: State<W>, step: Step)
    requires Inv(s) && ResumeInv(b, s) && TakingTurns(s) && Enabled(s, step) && step != TimeOut
    ensures ResumeInv(b, Apply(env, s, step)) && TakingTurns(Apply(env, s, step))
    ensures Apply(env, s, step).refused == s.refused
  {
    if step.LoadResponseBytes? {
      CheckKeepsTurns(env, b, s);
      ReadKeepsTurns(env, s, step);
    } else if ByClient(step) {
      ClientStepKeeps(env, b, s, step);
      if step.ReadResponseByte? || step.Finish? { ReadKeepsTurns(env, s, step); } else { SendKeepsTurns(env, s, step); }
    } else {
      WorkerStepKeeps(env, b, s, step);
      WorkKeepsTurns(env, s, step);
    }
  }

  lemma {:induction false} TurnsFrom<W(!new)>(env: Env<W>, o: State<W>, steps: seq<Step>)
    requires FitsSlot(env) && Inv(o) && o.client.Idle? && !Leftover(o) && LegalFrom(env, o, steps) && TimeOut !in steps
    ensures var s := AfterFrom(env, o, steps);
            ResumeInv(OriginOf(o), s) && TakingTurns(s) && s.refused == o.refused
    decreases |steps|
  {
    if steps == [] {
      OriginResumes(o);
      RestKeepsTurns(o);
    } else {
      var before := steps[..|steps| - 1];
      TurnsFrom(env, o, before);
      InvFrom(env, o, before);
      assert steps[|steps| - 1] in steps;
      StepKeepsTurns(env, OriginOf(o), AfterFrom(env, o, before), steps[|steps| - 1]);
    }
  }

  /** From every reachable state without leftovers, however many calls were abandoned or
      refused before, and over every continuation without timeouts and without bound: no
      call is refused, each is executed exactly once on its own request and returns the
      sequential server's reply. */
  lemma NoLeftoverNoRefusal<W(!new)>(env: Env<W>, o: State<W>, steps: seq<Step>)
    requires FitsSlot(env) && Reachable(env, o) && o.client.Idle? && !Leftover(o)
    requires LegalFrom(env, o, steps) && TimeOut !in steps
    ensures AfterFrom(env, o, steps).refused == o.refused && Resumed(env, o, AfterFrom(env, o, steps))
  {
    ReachableIsInv(env, o);
    TurnsFrom(env, o, steps);
    ReplaysFrom(env, o, steps);
    ResumeMeans(env, o, AfterFrom(env, o, steps));
  }

  /** And a call in progress always has a step that brings it closer to returning. */
  lemma NoLeftoverCompletes<W(!new)>(env: Env<W>, o: State<W>, steps: seq<Step>) returns (step: Step)
    requires FitsSlot(env) && Reachable(env, o) && o.client.Idle? && !Leftover(o)
    requires LegalFrom(env, o, steps) && TimeOut !in steps && !AfterFrom(env, o, steps).client.Idle?
    ensures step != TimeOut && Enabled(AfterFrom(env, o, steps), step)
    ensures Less(Remaining(Apply(env, AfterFrom(env, o, steps), step)), Remaining(AfterFrom(env, o, steps)))
  {
    ReachableIsInv(env, o);
    InvFrom(env, o, steps);
    TurnsFrom(env, o, steps);
    step := NextMove(env, AfterFrom(env, o, steps));
  }

  // ------------------------------------------------------------ the check itself

  /** In every run, timeouts included: a call among the first 2^32 - 1 is let through
      exactly when the sequence it loaded is its own, whatever was refused before. */
  lemma LetThroughIff<W(!new)>(env: Env<W>, steps: seq<Step>)
    requires FitsSlot(env) && Legal(env, steps)
    requires After(env, steps).client.SequenceLoaded? && After(env, steps).Calls() <= SEQUENCES
    ensures var s, t := After(env, steps), Apply(env, After(env, steps), LoadResponseBytes);
            if s.client.call == s.Calls() then t.client.Reading? && t.refused == s.refused
            else t.client.Idle? && t.refused == s.refused + 1
  {
    ReachableInv(env, steps);
    var s := After(env, steps);
    if s.client.sequence == SequenceOf(s.Calls()) { SequenceIdentifiesCall(s.client.call, s.Calls()); }
  }

  // ---------------------------------------------- exactly when a call can be refused

  /** The worker takes up a pending wake-up, if it has one, and finishes its work. */
  lemma Drain<W(!new)>(env: Env<W>, s: State<W>) returns (t: State<W>)
    requires FitsSlot(env) && Inv(s) && s.client.Idle?
    ensures Reaches(env, s, t) && Inv(t) && t.client.Idle? && t.worker.Polling?
    ensures t.issued == s.issued && t.accepted == s.accepted && t.refused == s.refused
    ensures Leftover(s) ==> t.responseSignals > 0
  {
    Stay(env, s);
    t := s;
    if t.worker.Polling? && t.requestSignals > 0 { t := TakeInv(env, s, t, ReadRequestSignal); }
    if t.worker.Signalled? { t := TakeInv(env, s, t, LoadRequestSequence); }
    t := ToPolling(env, s, t);
    ReachesInv(env, s, t);
  }

  lemma TakeInv<W(!new)>(env: Env<W>, o: State<W>, s: State<W>, step: Step) returns (t: State<W>)
    requires FitsSlot(env) && Inv(s) && Reaches(env, o, s) && Enabled(s, step)
    ensures Reaches(env, o, t) && t == Apply(env, s, step) && Inv(t)
  {
    t := Take(env, o, s, step);
    StepKeepsInv(env, s, step);
  }

  lemma ReachesInv<W(!new)>(env: Env<W>, o: State<W>, s: State<W>)
    requires FitsSlot(env) && Inv(o) && Reaches(env, o, s)
    ensures Inv(s)
  {
    var steps: seq<Step> :| LegalFrom(env, o, steps) && AfterFrom(env, o, steps) == s;
    InvFrom(env, o, steps);
  }

  /** A pending response signal wakes the next call too early. */
  lemma EarlyWakeRefuses<W>(env: Env<W>, o: State<W>, s: State<W>, m: seq<byte>) returns (t: State<W>)
    requires Inv(s) && Reaches(env, o, s) && s.client.Idle? && s.responseSignals > 0
    requires |m| <= SLOT_BYTES && s.Calls() < SEQUENCES
    ensures Reaches(env, o, t) && t.issued == s.issued + [m] && t.refused == s.refused + 1
  {
    if SequenceOf(s.responseCall) == SequenceOf(s.Calls() + 1) { SequenceIdentifiesCall(s.responseCall, s.Calls() + 1); }
    t := Publish(env, o, s, m);
    t := LoadForeign(env, o, t);
  }

  lemma LoadForeign<W>(env: Env<W>, o: State<W>, s: State<W>) returns (t: State<W>)
    requires Reaches(env, o, s) && s.client.Waiting? && s.responseSignals > 0
    requires s.responseSequence != SequenceOf(s.Calls())
    ensures Reaches(env, o, t) && t.issued == s.issued && t.refused == s.refused + 1
  {
    t := Take(env, o, s, ReadResponseSignal);
    t := Take(env, o, t, LoadResponseSequence);
    t := Take(env, o, t, LoadResponseBytes);
  }

  lemma LeftoverRefuses<W(!new)>(env: Env<W>, s: State<W>, m: seq<byte>) returns (t: State<W>)
    requires FitsSlot(env) && Inv(s) && s.client.Idle? && Leftover(s) && |m| <= SLOT_BYTES && s.Calls() < SEQUENCES
    ensures Reaches(env, s, t) && t.issued == s.issued + [m] && t.refused == s.refused + 1
  {
    t := Drain(env, s);
    t := EarlyWakeRefuses(env, s, t, m);
  }

  /** Without leftovers the next call is not refused, even if it times out. */
  ghost predicate NotRefused<W>(o: State<W>, s: State<W>)
  {
    && s.refused == o.refused && o.Calls() <= s.Calls()
    && (TakingTurns(s) || (s.client.Idle? && s.Calls() > o.Calls()))
  }

  lemma StepNotRefused<W>(env: Env<W>, o: State<W>, s: State<W>, step: Step)
    requires Inv(s) && NotRefused(o, s) && Enabled(s, step) && Apply(env, s, step).Calls() <= o.Calls() + 1
    requires s.Calls() == o.Calls() ==> s.client.Idle?
    ensures NotRefused(o, Apply(env, s, step))
    ensures Apply(env, s, step).Calls() == o.Calls() ==> Apply(env, s, step).client.Idle?
  {
    if TakingTurns(s) && step != TimeOut {
      if step.LoadResponseBytes? || step.ReadResponseByte? || step.Finish? {
        ReadKeepsTurns(env, s, step);
      } else if ByClient(step) {
        SendKeepsTurns(env, s, step);
      } else {
        WorkKeepsTurns(env, s, step);
      }
    }
  }

  lemma {:induction false} NotRefusedFrom<W(!new)>(env: Env<W>, o: State<W>, steps: seq<Step>)
    requires FitsSlot(env) && Inv(o) && o.client.Idle? && !Leftover(o)
    requires LegalFrom(env, o, steps) && AfterFrom(env, o, steps).Calls() <= o.Calls() + 1
    ensures var s := AfterFrom(env, o, steps);
            NotRefused(o, s) && (s.Calls() == o.Calls() ==> s.client.Idle?)
    decreases |steps|
  {
    if steps == [] {
      RestKeepsTurns(o);
    } else {
      var before := steps[..|steps| - 1];
      Grow(env, AfterFrom(env, o, before), steps[|steps| - 1]);
      NotRefusedFrom(env, o, before);
      InvFrom(env, o, before);
      StepNotRefused(env, o, AfterFrom(env, o, before), steps[|steps| - 1]);
    }
  }

  /** Main result on refusals.  From every reachable state with an idle client, up to call
      2^32 - 1 and whatever was abandoned or refused before, the next call can be refused
      if and only if something of an abandoned call is still on its way. */
  lemma RefusedIff<W(!new)>(env: Env<W>, s: State<W>, m: seq<byte>)
    requires FitsSlot(env) && Reachable(env, s) && s.client.Idle? && |m| <= SLOT_BYTES && s.Calls() < SEQUENCES
    ensures (exists t :: Reaches(env, s, t) && t.issued == s.issued + [m] && t.refused > s.refused) <==> Leftover(s)
  {
    ReachableIsInv(env, s);
    if Leftover(s) {
      var t := LeftoverRefuses(env, s, m);
    } else {
      forall t | Reaches(env, s, t) && t.issued == s.issued + [m] ensures t.refused == s.refused {
        var steps: seq<Step> :| LegalFrom(env, s, steps) && AfterFrom(env, s, steps) == t;
        NotRefusedFrom(env, s, steps);
      }
    }
  }

  // ------------------------------------------------------------ no refusal lasts

  lemma {:induction false} ReadAll<W>(env: Env<W>, o: State<W>, s: State<W>) returns (t: State<W>)
    requires Reaches(env, o, s) && s.client.Reading? && |s.client.got| <= s.client.length <= |s.responseSlot|
    ensures Reaches(env, o, t) && t.client.Reading? && |t.client.got| == t.client.length && t == s.(client := t.client)
    decreases s.client.length - |s.client.got|
  {
    t := s;
    if |s.client.got| < s.client.length {
      t := Take(env, o, s, ReadResponseByte);
      t := ReadAll(env, o, t);
    }
  }

  /** The client takes the reply that is there for its newest call. */
  lemma TakeReply<W>(env: Env<W>, o: State<W>, s: State<W>) returns (t: State<W>)
    requires Reaches(env, o, s) && s.client.Waiting? && Replied(s, s.Calls()) && |s.responseSlot| == SLOT_BYTES
    ensures Reaches(env, o, t) && t.client.Idle? && t.worker == s.worker && t.responseSignals == 0
    ensures t.issued == s.issued && t.requestSignals == s.requestSignals && t.refused == s.refused
    ensures |t.accepted| == |s.accepted| + 1 && t.accepted[|s.accepted|].call == s.Calls()
  {
    t := Take(env, o, s, ReadResponseSignal);
    t := Take(env, o, t, LoadResponseSequence);
    t := Take(env, o, t, LoadResponseBytes);
    t := ReadAll(env, o, t);
    t := Take(env, o, t, Finish);
  }

  /** From every reachable state with an idle client, whatever leftovers and refusals
      there are, the next call can return, and leave nothing behind. */
  lemma NextCallCanReturn<W(!new)>(env: Env<W>, s: State<W>, m: seq<byte>) returns (t: State<W>)
    requires FitsSlot(env) && Reachable(env, s) && s.client.Idle? && |m| <= SLOT_BYTES
    ensures Reaches(env, s, t) && t.issued == s.issued + [m] && t.client.Idle? && !Leftover(t)
    ensures t.refused == s.refused
    ensures |t.accepted| == |s.accepted| + 1 && t.accepted[|s.accepted|].call == t.Calls()
  {
    ReachableIsInv(env, s);
    t := Drain(env, s);
    t := Publish(env, s, t, m);
    t := Take(env, s, t, ReadRequestSignal);
    t := ExecuteWoken(env, s, t, m, t.Calls());
    ReachesInv(env, s, t);
    t := TakeReply(env, s, t);
  }
}
