/** Whom the launcher's state record names over every run, and exactly when a running
    supervisor can still drop out of it. */
module SupervisorRecord {
  import opened Options
  import opened SupervisorLock

  // ----------------------------------------------------- whom the record names

  /** Each lineage has its own supervisor process. */
  ghost predicate SupervisorsInv(s: State)
  {
    && (forall c :: 0 <= c < |s.commands| && s.commands[c].supervisor.Some? ==>
          s.commands[c].supervisor.value < |s.processes|)
    && (forall c, d :: 0 <= c < d < |s.commands| && s.commands[c].supervisor.Some? ==>
          s.commands[c].supervisor != s.commands[d].supervisor)
  }

  /** Only a fork gives a command its supervisor. */
  lemma SupervisorsUnchanged(s: State, step: Step)
    requires Enabled(s, step) && !step.ForkSupervisor?
    ensures |s.commands| <= |Apply(s, step).commands| && |s.processes| <= |Apply(s, step).processes|
    ensures forall c :: 0 <= c < |Apply(s, step).commands| ==>
              Apply(s, step).commands[c].supervisor == if c < |s.commands| then s.commands[c].supervisor else None
  {
  }

  lemma SupervisorsKept(s: State, step: Step)
    requires SupervisorsInv(s) && LockInv(s.lock, s.commands) && Enabled(s, step)
    ensures SupervisorsInv(Apply(s, step))
    ensures forall c :: 0 <= c < |s.commands| && s.commands[c].supervisor.Some? ==>
              c < |Apply(s, step).commands| && Apply(s, step).commands[c].supervisor == s.commands[c].supervisor
  {
    if step.ForkSupervisor? {
      assert CommandInv(s.lock, s.commands[step.c], step.c);
    } else {
      SupervisorsUnchanged(s, step);
    }
  }

  lemma {:induction false} ReachableSupervisors(steps: seq<Step>)
    requires Legal(steps)
    ensures SupervisorsInv(After(steps))
    decreases |steps|
  {
    if steps != [] {
      ReachableSupervisors(steps[..|steps| - 1]);
      ReachableInv(steps[..|steps| - 1]);
      SupervisorsKept(After(steps[..|steps| - 1]), steps[|steps| - 1]);
    }
  }

  /** The lineage whose write the record still holds; None if there was no write or
      a force-stop cleared the record after it. */
  function LastWriter(steps: seq<Step>): Option<nat>
  {
    if steps == [] then None
    else
      var last := steps[|steps| - 1];
      if last.WriteRecord? then Some(last.c)
      else if last.ClearRecord? then None
      else LastWriter(steps[..|steps| - 1])
  }

  /** The record names the last writer's supervisor, and nobody when there is none. */
  ghost predicate Names(s: State, writer: Option<nat>)
  {
    match writer
    case None => s.record.Some? ==> s.record.value.supervisor.of == None
    case Some(c) =>
      && c < |s.commands| && s.commands[c].supervisor.Some? && s.commands[c].supervisor.value < |s.processes|
      && s.record.Some? && s.record.value.supervisor == Identify(s, s.commands[c].supervisor, true)
  }

  lemma NamesKept(s: State, step: Step, writer: Option<nat>)
    requires Names(s, writer) && Enabled(s, step) && SupervisorsInv(s) && LockInv(s.lock, s.commands)
    requires !step.WriteRecord? && !step.ClearRecord?
    ensures Names(Apply(s, step), writer)
  {
    SupervisorsKept(s, step);
  }

  lemma {:induction false} RecordNamesLastWriter(steps: seq<Step>)
    requires Legal(steps)
    ensures Names(After(steps), LastWriter(steps))
    decreases |steps|
  {
    if steps != [] {
      var before, last := steps[..|steps| - 1], steps[|steps| - 1];
      RecordNamesLastWriter(before);
      ReachableInv(before);
      ReachableSupervisors(before);
      if !last.WriteRecord? && !last.ClearRecord? { NamesKept(After(before), last, LastWriter(before)); }
    }
  }

  /** What the kernel gives every user process. */
  predicate Ordinary(p: Process)
  {
    p.pid > 1 && p.ticks != 0 && p.exe != 0
  }

  /** The record identifies lineage c's supervisor, so that a stop can signal it. */
  ghost predicate Recorded(s: State, c: nat)
  {
    c < |s.commands| && s.record.Some? && ValidProcess(s, s.record.value.supervisor)
    && s.record.value.supervisor.of == s.commands[c].supervisor
  }

  // --------------------------------------- exactly when it can still be hidden

  ghost predicate LegalFrom(o: State, steps: seq<Step>)
    decreases |steps|, 0
  {
    steps == [] || (LegalFrom(o, steps[..|steps| - 1]) && Enabled(AfterFrom(o, steps[..|steps| - 1]), steps[|steps| - 1]))
  }

  ghost function AfterFrom(o: State, steps: seq<Step>): State
    requires LegalFrom(o, steps)
    decreases |steps|, 1
  {
    if steps == [] then o else Apply(AfterFrom(o, steps[..|steps| - 1]), steps[|steps| - 1])
  }

  lemma StepKeepsAll(s: State, step: Step)
    requires Inv(s) && SupervisorsInv(s) && Enabled(s, step)
    ensures Inv(Apply(s, step)) && SupervisorsInv(Apply(s, step))
  {
    if TakesOrGivesLock(step) { LockStepsKept(s, step); } else { OtherStepsKept(s, step); }
    ProcessesKept(s, step);
    RecordsKept(s, step);
    CheckedKept(s, step);
    SupervisorsKept(s, step);
  }

  /** Force-stop f has given the lock back and has its cleared record still to write. */
  predicate Owes(s: State, f: nat)
  {
    f < |s.commands| && s.commands[f].owes && s.commands[f].kind == ForceStopCommand
  }

  /** A supervisor that is gone, or has closed the lock file, does not come back. */
  lemma SupervisesBefore(s: State, step: Step, c: nat)
    requires SupervisorsInv(s) && LockInv(s.lock, s.commands) && Enabled(s, step)
    requires c < |s.commands| && s.commands[c].supervisor.Some? && Supervises(Apply(s, step), c)
    ensures Supervises(s, c)
  {
    SupervisorsKept(s, step);
  }

  /** While a lineage runs nobody else gets the lock, so nobody starts to owe. */
  lemma NoNewDebt(s: State, step: Step, c: nat, f: nat)
    requires LockInv(s.lock, s.commands) && Supervises(s, c) && Enabled(s, step) && Owes(Apply(s, step), f)
    ensures Owes(s, f)
  {
    assert CommandInv(s.lock, s.commands[c], c);
    assert forall d :: 0 <= d < |s.commands| ==> CommandInv(s.lock, s.commands[d], d);
  }

  /** Lineage c, while it supervises, is named by the record and nobody owes. */
  ghost predicate Safe(s: State, c: nat)
  {
    && c < |s.commands| && s.commands[c].supervisor.Some?
    && (Supervises(s, c) ==> Names(s, Some(c)) && forall f: nat :: !Owes(s, f))
  }

  lemma SafeKept(s: State, step: Step, c: nat)
    requires Inv(s) && SupervisorsInv(s) && Safe(s, c) && Enabled(s, step)
    ensures Safe(Apply(s, step), c)
  {
    var t := Apply(s, step);
    SupervisorsKept(s, step);
    if Supervises(t, c) {
      SupervisesBefore(s, step, c);
      forall f: nat ensures !Owes(t, f) {
        if Owes(t, f) { NoNewDebt(s, step, c, f); }
      }
      SafeStillNamed(s, step, c);
    }
  }

  lemma SafeStillNamed(s: State, step: Step, c: nat)
    requires Inv(s) && SupervisorsInv(s) && Safe(s, c) && Supervises(s, c) && Enabled(s, step)
    ensures Names(Apply(s, step), Some(c))
  {
    if step.WriteRecord? {
      assert CommandInv(s.lock, s.commands[c], c) && CommandInv(s.lock, s.commands[step.c], step.c);
    } else if step.ClearRecord? {
      assert Owes(s, step.c);
    } else {
      NamesKept(s, step, Some(c));
    }
  }

  lemma {:induction false} SafeFrom(o: State, steps: seq<Step>, c: nat)
    requires Inv(o) && SupervisorsInv(o) && Safe(o, c) && LegalFrom(o, steps)
    ensures Inv(AfterFrom(o, steps)) && SupervisorsInv(AfterFrom(o, steps)) && Safe(AfterFrom(o, steps), c)
    decreases |steps|
  {
    if steps != [] {
      var before, step := steps[..|steps| - 1], steps[|steps| - 1];
      SafeFrom(o, before, c);
      StepKeepsAll(AfterFrom(o, before), step);
      SafeKept(AfterFrom(o, before), step, c);
    }
  }

  /** Some continuation leaves lineage c supervising but out of the record's sight. */
  ghost predicate CanBeHidden(s: State, c: nat)
  {
    exists steps :: LegalFrom(s, steps) && Supervises(AfterFrom(s, steps), c) && !Recorded(AfterFrom(s, steps), c)
  }

  ghost predicate OrdinarySupervisor(s: State, c: nat)
  {
    c < |s.commands| && s.commands[c].supervisor.Some? && s.commands[c].supervisor.value < |s.processes|
    && Ordinary(s.processes[s.commands[c].supervisor.value])
  }

  lemma {:induction false} OrdinaryStays(o: State, steps: seq<Step>, c: nat)
    requires Inv(o) && SupervisorsInv(o) && Safe(o, c) && OrdinarySupervisor(o, c) && LegalFrom(o, steps)
    ensures OrdinarySupervisor(AfterFrom(o, steps), c)
    decreases |steps|
  {
    if steps != [] {
      var before := steps[..|steps| - 1];
      OrdinaryStays(o, before, c);
      SafeFrom(o, before, c);
      SupervisorsKept(AfterFrom(o, before), steps[|steps| - 1]);
    }
  }

  lemma NamedIsRecorded(s: State, c: nat)
    requires Names(s, Some(c)) && Supervises(s, c) && OrdinarySupervisor(s, c)
    ensures Recorded(s, c)
  {
    assert IsProcess(s, s.record.value.supervisor, s.commands[c].supervisor.value);
  }

  /** Exactly when a running supervisor that the record identifies can still drop out of
      it, whatever commands follow: some force-stop has given the lock back, necessarily
      before this start took it, and has neither written its cleared record nor given up. */
  lemma CanBeHiddenIff(steps: seq<Step>, c: nat)
    requires Legal(steps) && Supervises(After(steps), c) && Recorded(After(steps), c)
    requires OrdinarySupervisor(After(steps), c)
    ensures CanBeHidden(After(steps), c) <==> exists f: nat :: Owes(After(steps), f)
  {
    var s := After(steps);
    ReachableInv(steps);
    ReachableSupervisors(steps);
    if f: nat :| Owes(s, f) {
      DebtHides(s, c, f);
    } else {
      RecordNamesLastWriter(steps);
      assert Names(s, Some(c));
      forall more | LegalFrom(s, more) && Supervises(AfterFrom(s, more), c) ensures Recorded(AfterFrom(s, more), c) {
        SafeFrom(s, more, c);
        OrdinaryStays(s, more, c);
        NamedIsRecorded(AfterFrom(s, more), c);
      }
    }
  }

  lemma DebtHides(s: State, c: nat, f: nat)
    requires Supervises(s, c) && Owes(s, f)
    ensures CanBeHidden(s, c)
  {
    var step := ClearRecord(f, Record(Systemd, NOBODY, NOBODY));
    var steps := [step];
    assert steps[..|steps| - 1] == [];
    assert LegalFrom(s, []) && AfterFrom(s, []) == s;
    assert LegalFrom(s, steps) && AfterFrom(s, steps) == Apply(s, step);
  }

  /** Such a debt is as old as the lineage: while it supervises, none arises. */
  lemma {:induction false} DebtsAreOld(o: State, steps: seq<Step>, c: nat, f: nat)
    requires Inv(o) && SupervisorsInv(o) && Supervises(o, c) && LegalFrom(o, steps)
    requires Supervises(AfterFrom(o, steps), c) && Owes(AfterFrom(o, steps), f)
    ensures Owes(o, f)
    decreases |steps|
  {
    if steps != [] {
      var before, step := steps[..|steps| - 1], steps[|steps| - 1];
      InvFrom(o, before, c);
      SupervisesBefore(AfterFrom(o, before), step, c);
      NoNewDebt(AfterFrom(o, before), step, c, f);
      DebtsAreOld(o, before, c, f);
    }
  }

  lemma {:induction false} InvFrom(o: State, steps: seq<Step>, c: nat)
    requires Inv(o) && SupervisorsInv(o) && LegalFrom(o, steps) && c < |o.commands| && o.commands[c].supervisor.Some?
    ensures var s := AfterFrom(o, steps);
            Inv(s) && SupervisorsInv(s) && c < |s.commands| && s.commands[c].supervisor == o.commands[c].supervisor
    decreases |steps|
  {
    if steps != [] {
      var before, step := steps[..|steps| - 1], steps[|steps| - 1];
      InvFrom(o, before, c);
      StepKeepsAll(AfterFrom(o, before), step);
      SupervisorsKept(AfterFrom(o, before), step);
    }
  }
}
