/** When a start goes on to fork, when an orphaned init holds it back, and that a stop
    reaches the supervisor the record names. */
module SupervisorStart {
  import opened Options
  import opened SupervisorLock
  import opened SupervisorRecord

  /** A process with every recorded mark of the init. */
  predicate Matches(q: Process, r: Record)
  {
    && q.pid > 1 && q.ticks != 0 && q.exe != 0
    && q.pid == r.init.pid && q.ticks == r.init.ticks && q.exe == r.init.exe
    && (r.mode == Systemd ==> q.ns != 0 && q.ns == r.init.ns)
  }

  predicate LiveMatch(s: State, p: nat)
  {
    p < |s.processes| && p in s.live && s.record.Some? && Matches(s.processes[p], s.record.value)
  }

  ghost predicate OrphanedInit(s: State)
  {
    exists p: nat :: LiveMatch(s, p)
  }

  lemma OrphanIsRecordedInit(s: State)
    ensures OrphanedInit(s) <==> RecordedInitLive(s)
  {
    if p: nat :| LiveMatch(s, p) {
      assert IsProcess(s, s.record.value.init, p);
    }
    if RecordedInitLive(s) {
      var r := s.record.value;
      if r.mode == Systemd {
        var p: nat :| IsProcess(s, r.init, p) && s.processes[p].ns == r.init.ns;
        assert LiveMatch(s, p);
      } else {
        var p: nat :| IsProcess(s, r.init, p);
        assert LiveMatch(s, p);
      }
    }
  }

  /** Over every run: a start that holds the lock goes on exactly when no live process has
      all the recorded marks; otherwise it gives the lock back.  Such a process is the
      very incarnation that was recorded. */
  lemma StartGoesOnIff(steps: seq<Step>, c: nat)
    requires Legal(steps) && Enabled(After(steps), CheckRecord(c))
    ensures var s, t := After(steps), Apply(After(steps), CheckRecord(c));
            && (t.commands[c].pc == Checked && t.lock == Some(c) <==> !OrphanedInit(s))
            && (t.commands[c].pc == Released && t.lock == None <==> OrphanedInit(s))
            && forall p: nat :: LiveMatch(s, p) ==> s.record.value.init.of == Some(p)
  {
    var s := After(steps);
    ReachableInv(steps);
    OrphanIsRecordedInit(s);
    assert CommandInv(s.lock, s.commands[c], c);
    forall p: nat | LiveMatch(s, p) ensures s.record.value.init.of == Some(p) {
      MatchIsTheRecordedOne(s, s.record.value.init, p);
    }
  }

  // --------------------------------------------------------- a start can always go on

  lemma Then(o: State, before: seq<Step>, step: Step) returns (more: seq<Step>)
    requires LegalFrom(o, before) && Enabled(AfterFrom(o, before), step)
    ensures more == before + [step] && LegalFrom(o, more) && AfterFrom(o, more) == Apply(AfterFrom(o, before), step)
  {
    more := before + [step];
    assert more[..|more| - 1] == before;
  }

  /** A new start takes the lock exactly when it is free. */
  lemma StartLocks(s: State) returns (more: seq<Step>)
    requires LockInv(s.lock, s.commands)
    ensures LegalFrom(s, more)
    ensures var c, t := |s.commands|, AfterFrom(s, more);
            && t.processes == s.processes && t.live == s.live && t.record == s.record
            && |t.commands| == c + 1 && t.commands[c].kind == StartCommand && t.commands[..c] == s.commands
            && (s.lock.None? <==> t.commands[c].pc == Holding)
            && (s.lock.None? <==> t.lock == Some(c))
  {
    var c := |s.commands|;
    assert LegalFrom(s, []) && AfterFrom(s, []) == s;
    more := Then(s, [], Open(StartCommand));
    more := Then(s, more, TryLock(c));
    if s.lock.Some? { assert CommandInv(s.lock, s.commands[s.lock.value], s.lock.value); }
    assert AfterFrom(s, more).commands[..c] == s.commands;
  }

  /** From every reachable state with a free lock and no orphaned init, a newly opened
      start gets to fork its supervisor as any process the kernel can start. */
  lemma StartCanFork(steps: seq<Step>, p: Process) returns (more: seq<Step>)
    requires Legal(steps) && After(steps).lock.None? && !OrphanedInit(After(steps)) && CanSpawn(After(steps), p)
    ensures LegalFrom(After(steps), more)
    ensures var c, t := |After(steps).commands|, AfterFrom(After(steps), more);
            c < |t.commands| && t.commands[c].kind == StartCommand && Enabled(t, ForkSupervisor(c, p))
            && Supervises(Apply(t, ForkSupervisor(c, p)), c)
  {
    var s := After(steps);
    ReachableInv(steps);
    more := StartLocks(s);
    var t := AfterFrom(s, more);
    OrphanIsRecordedInit(s);
    OrphanIsRecordedInit(t);
    assert forall q: nat :: LiveMatch(t, q) <==> LiveMatch(s, q);
    more := Then(s, more, CheckRecord(|s.commands|));
  }

  /** The kernel can always start some process. */
  lemma {:induction false} FreshPid(processes: seq<Process>) returns (pid: nat)
    ensures pid > 1 && forall q :: 0 <= q < |processes| ==> processes[q].pid < pid
  {
    if processes == [] {
      pid := 2;
    } else {
      var last := |processes| - 1;
      pid := FreshPid(processes[..last]);
      if pid <= processes[last].pid { pid := processes[last].pid + 1; }
    }
  }

  lemma SomethingCanSpawn(s: State) returns (p: Process)
    ensures CanSpawn(s, p) && Ordinary(p)
  {
    var pid := FreshPid(s.processes);
    p := Process(pid, 1, 1, 1);
  }

  // ------------------------------------------------------- an orphan holds starts back

  /** The record holds the complete identity of process i as the init. */
  predicate NamesInit(s: State, i: nat)
  {
    i < |s.processes| && s.record.Some? && s.record.value.init == Identify(s, Some(i), true)
  }

  lemma NamesInitKept(s: State, step: Step, i: nat)
    requires NamesInit(s, i) && Enabled(s, step) && !step.WriteRecord? && !step.ClearRecord?
    ensures NamesInit(Apply(s, step), i) && Apply(s, step).record == s.record
    ensures Apply(s, step).processes[i] == s.processes[i]
  {
  }

  lemma {:induction false} NamesInitFrom(o: State, steps: seq<Step>, i: nat)
    requires NamesInit(o, i) && LegalFrom(o, steps)
    requires forall k :: 0 <= k < |steps| ==> !steps[k].WriteRecord? && !steps[k].ClearRecord?
    ensures NamesInit(AfterFrom(o, steps), i) && AfterFrom(o, steps).record == o.record
    ensures AfterFrom(o, steps).processes[i] == o.processes[i]
    decreases |steps|
  {
    if steps != [] {
      NamesInitFrom(o, steps[..|steps| - 1], i);
      NamesInitKept(AfterFrom(o, steps[..|steps| - 1]), steps[|steps| - 1], i);
    }
  }

  /** Once a supervisor has recorded its init completely, and until the record is replaced
      or cleared: for as long as that init lives, whoever else has died, every start that
      gets the lock is held back, and once it is dead none is. */
  lemma OrphanHoldsStartsBack(steps: seq<Step>, c: nat, mode: Mode, more: seq<Step>, i: nat)
    requires Legal(steps) && Enabled(After(steps), WriteRecord(c, mode, true))
    requires After(steps).commands[c].init == Some(i) && i < |After(steps).processes|
    requires Ordinary(After(steps).processes[i]) && After(steps).processes[i].ns != 0
    requires LegalFrom(Apply(After(steps), WriteRecord(c, mode, true)), more)
    requires forall k :: 0 <= k < |more| ==> !more[k].WriteRecord? && !more[k].ClearRecord?
    ensures var t := AfterFrom(Apply(After(steps), WriteRecord(c, mode, true)), more);
            OrphanedInit(t) <==> i in t.live
  {
    var s := Apply(After(steps), WriteRecord(c, mode, true));
    ReachableInv(steps);
    ReachableSupervisors(steps);
    StepKeepsAll(After(steps), WriteRecord(c, mode, true));
    InvFrom(s, more, c);
    NamesInitFrom(s, more, i);
    var t := AfterFrom(s, more);
    if i in t.live { assert LiveMatch(t, i); }
    if p: nat :| LiveMatch(t, p) {
      MatchIsTheRecordedOne(t, t.record.value.init, p);
    }
  }

  // ------------------------------------------------------------------- a stop arrives

  /** From every reachable state whose record identifies a live supervisor, a newly opened
      stop can signal exactly that process. */
  lemma StopCanSignal(steps: seq<Step>, c: nat) returns (more: seq<Step>)
    requires Legal(steps) && Recorded(After(steps), c)
    ensures LegalFrom(After(steps), more)
    ensures var s, t := After(steps), AfterFrom(After(steps), more);
            && |t.signals| == |s.signals| + 1 && t.live == s.live
            && s.commands[c].supervisor == Some(t.signals[|s.signals|].target)
  {
    var s := After(steps);
    ReachableInv(steps);
    var id := s.record.value.supervisor;
    var p: nat :| IsProcess(s, id, p);
    MatchIsTheRecordedOne(s, id, p);
    var d := |s.commands|;
    assert LegalFrom(s, []) && AfterFrom(s, []) == s;
    more := Then(s, [], Open(StopCommand));
    more := Then(s, more, ReadRecord(d));
    assert IsProcess(AfterFrom(s, more), id, p);
    more := Then(s, more, SignalSupervisor(d, p));
  }

  /** And an init that is alive under all its recorded marks, supervised or orphaned, can
      be signalled by a newly opened stop: that very process. */
  lemma StopCanSignalInit(steps: seq<Step>, p: nat) returns (more: seq<Step>)
    requires Legal(steps) && LiveMatch(After(steps), p)
    ensures LegalFrom(After(steps), more)
    ensures var s, t := After(steps), AfterFrom(After(steps), more);
            |t.signals| == |s.signals| + 1 && t.live == s.live && t.signals[|s.signals|].target == p
  {
    var s := After(steps);
    var id := s.record.value.init;
    var d := |s.commands|;
    assert LegalFrom(s, []) && AfterFrom(s, []) == s;
    more := Then(s, [], Open(StopCommand));
    more := Then(s, more, ReadRecord(d));
    assert IsProcess(AfterFrom(s, more), id, p);
    more := Then(s, more, SignalInit(d, p));
  }

  // ------------------------------------------------------------ the lock frees up

  /** Closing one descriptor takes one holder away, and the lock goes with the last. */
  lemma HolderCloses(s: State, c: nat, h: Holder) returns (step: Step)
    requires c < |s.commands| && h in s.commands[c].holders
    ensures Enabled(s, step)
    ensures var t := Apply(s, step);
            && c < |t.commands| && t.commands[c].holders == s.commands[c].holders - {h}
            && t.processes == s.processes && t.live == s.live && t.record == s.record
            && (s.lock == Some(c) ==> t.lock == if t.commands[c].holders == {} then None else Some(c))
  {
    step := if h == Parent then CloseDescriptor(c) else ChildCloses(c, h.process);
  }

  /** From every state whose lock is held, the holders can close it one after the other,
      and then it is free, with no process, live or dead, and no record changed. */
  lemma {:induction false} LockFreesUp(o: State, before: seq<Step>, c: nat) returns (more: seq<Step>)
    requires LegalFrom(o, before) && AfterFrom(o, before).lock == Some(c)
    requires c < |AfterFrom(o, before).commands| && AfterFrom(o, before).commands[c].holders != {}
    ensures LegalFrom(o, more) && AfterFrom(o, more).lock == None
    ensures var s, t := AfterFrom(o, before), AfterFrom(o, more);
            t.processes == s.processes && t.live == s.live && t.record == s.record
    decreases AfterFrom(o, before).commands[c].holders
  {
    var s := AfterFrom(o, before);
    var h :| h in s.commands[c].holders;
    var step := HolderCloses(s, c, h);
    more := Then(o, before, step);
    if s.commands[c].holders != {h} {
      assert s.commands[c].holders - {h} != {};
      more := LockFreesUp(o, more, c);
    } else {
      assert s.commands[c].holders - {h} == {};
    }
  }
}
