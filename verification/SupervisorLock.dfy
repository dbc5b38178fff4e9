/** The launcher's commands, supervisors and state record under full concurrency:
    any number of start, stop, status and force-stop commands, an flock that
    children inherit, a state record replaced by rename, and processes whose pids
    are reused.

    What the kernel is taken to guarantee: a lock belongs to one open of the lock
    file and is gone once every process that inherited it has closed it or died;
    live processes have distinct pids; a process that reuses a pid has a later
    start time; and a recorded process keeps its executable and namespaces. */
module SupervisorLock {
  import opened Options

  /** A process incarnation; its index in the process table names it for ever. */
  datatype Process = Process(pid: nat, ticks: nat, exe: nat, ns: nat)

  /** A recorded identity. `of` is the incarnation it was captured from; it is
      bookkeeping that no validator looks at. */
  datatype Identity = Identity(pid: nat, ticks: nat, exe: nat, ns: nat, of: Option<nat>)

  const NOBODY: Identity := Identity(0, 0, 0, 0, None)

  datatype Mode = Systemd | Compat

  datatype Record = Record(mode: Mode, supervisor: Identity, init: Identity)

  datatype CommandKind = StartCommand | StopCommand | StatusCommand | ForceStopCommand

  /** Who has the lock file open through one command's descriptor. */
  datatype Holder = Parent | Child(process: nat)

  datatype Pc =
    | Opened
    | Busy                 // the lock was held by someone else
    | Holding              // took the lock
    | Checked              // start only: no live recorded init
    | Forked               // start only: the supervisor runs
    | Released             // unlocked explicitly
    | Gone                 // descriptor closed

  /** One command and, for a start that forked, its supervisor lineage.  A force-stop
      `owes` its cleared record from unlocking until it writes it or gives up. */
  datatype Command = Command(
    kind: CommandKind, pc: Pc, snapshot: Option<Record>,
    holders: set<Holder>, supervisor: Option<nat>, init: Option<nat>, owes: bool)

  /** A delivered signal: the incarnation that got it and the identity it was for. */
  datatype Signal = Signal(target: nat, identity: Identity)

  datatype State = State(
    lock: Option<nat>, commands: seq<Command>,
    processes: seq<Process>, live: set<nat>,
    record: Option<Record>, signals: seq<Signal>)

  const INITIAL: State := State(None, [], [], {}, None, [])

  // --------------------------------------------------------------- validators

  predicate IsProcess(s: State, id: Identity, p: nat)
  {
    p < |s.processes| && p in s.live
    && s.processes[p].pid == id.pid && s.processes[p].ticks == id.ticks && s.processes[p].exe == id.exe
  }

  /** `validate_supervisor_identity` and `validate_compat_service_identity`. */
  ghost predicate ValidProcess(s: State, id: Identity)
  {
    id.pid > 1 && id.ticks != 0 && id.exe != 0 && exists p: nat :: IsProcess(s, id, p)
  }

  /** `validate_init_identity` outside compatibility mode adds the namespaces. */
  ghost predicate ValidInit(s: State, r: Record)
  {
    && ValidProcess(s, r.init)
    && (r.mode == Systemd ==> r.init.ns != 0 && exists p: nat :: IsProcess(s, r.init, p) && s.processes[p].ns == r.init.ns)
  }

  ghost predicate RecordedInitLive(s: State)
  {
    s.record.Some? && ValidInit(s, s.record.value)
  }

  // -------------------------------------------------------------------- steps

  datatype Step =
    | Open(kind: CommandKind)
    | TryLock(c: nat)
    | CheckRecord(c: nat)
    | Unlock(c: nat)
    | ForkSupervisor(c: nat, process: Process)
    | ReadRecord(c: nat)
    | SignalSupervisor(c: nat, target: nat)
    | SignalInit(c: nat, target: nat)
    | ClearRecord(c: nat, stale: Record)
    | GiveUp(c: nat)
    | CloseDescriptor(c: nat)
    // supervisors
    | ForkChild(c: nat, process: Process, asInit: bool)
    | ChildCloses(c: nat, child: nat)
    | WriteRecord(c: nat, mode: Mode, complete: bool)
    // everything else
    | Exit(p: nat)
    | SpawnOther(process: Process)

  /** The kernel can start this process now. */
  predicate CanSpawn(s: State, p: Process)
  {
    && (forall q :: 0 <= q < |s.processes| && s.processes[q].pid == p.pid ==> s.processes[q].ticks < p.ticks)
    && (forall q :: 0 <= q < |s.processes| && q in s.live ==> s.processes[q].pid != p.pid)
  }

  /** The supervisor of lineage c is alive and still has the lock file open. */
  predicate Supervises(s: State, c: nat)
  {
    c < |s.commands| && s.commands[c].supervisor.Some?
    && s.commands[c].supervisor.value in s.live && Child(s.commands[c].supervisor.value) in s.commands[c].holders
  }

  ghost predicate Enabled(s: State, step: Step)
  {
    match step
    case Open(_) => true
    case TryLock(c) => c < |s.commands| && (s.commands[c].pc == Opened || s.commands[c].pc == Busy)
    case CheckRecord(c) => c < |s.commands| && s.commands[c].pc == Holding && s.commands[c].kind == StartCommand
    case Unlock(c) => c < |s.commands| && (s.commands[c].pc == Holding || s.commands[c].pc == Checked)
    case ForkSupervisor(c, p) => c < |s.commands| && s.commands[c].pc == Checked && CanSpawn(s, p)
    case ReadRecord(c) => c < |s.commands| && s.commands[c].kind != StartCommand
    case SignalSupervisor(c, target) =>
      && c < |s.commands| && (s.commands[c].kind == StopCommand || s.commands[c].kind == ForceStopCommand)
      && s.commands[c].snapshot.Some?
      && ValidProcess(s, s.commands[c].snapshot.value.supervisor)
      && target < |s.processes| && target in s.live
      && s.processes[target].pid == s.commands[c].snapshot.value.supervisor.pid
    case SignalInit(c, target) =>
      && c < |s.commands| && (s.commands[c].kind == StopCommand || s.commands[c].kind == ForceStopCommand)
      && s.commands[c].snapshot.Some?
      && ValidInit(s, s.commands[c].snapshot.value)
      && target < |s.processes| && target in s.live
      && s.processes[target].pid == s.commands[c].snapshot.value.init.pid
    case ClearRecord(c, stale) =>
      // once, after the lock was taken and given back
      && c < |s.commands| && s.commands[c].kind == ForceStopCommand && s.commands[c].owes
      // a cleared record keeps at most the pids
      && stale.supervisor.ticks == 0 && stale.init.ticks == 0
      && stale.supervisor.of == None && stale.init.of == None
    // it returns early, dies, or its write fails
    case GiveUp(c) => c < |s.commands| && s.commands[c].owes
    case CloseDescriptor(c) => c < |s.commands| && Parent in s.commands[c].holders
    case ForkChild(c, p, asInit) => Supervises(s, c) && CanSpawn(s, p) && (asInit ==> s.commands[c].init.None?)
    case ChildCloses(c, child) => c < |s.commands| && Child(child) in s.commands[c].holders
    case WriteRecord(c, _, _) => Supervises(s, c)
    case Exit(p) => p in s.live
    case SpawnOther(p) => CanSpawn(s, p)
  }

  function Identify(s: State, p: Option<nat>, complete: bool): Identity
  {
    if p.None? || p.value >= |s.processes| then NOBODY
    else
      var q := s.processes[p.value];
      if complete then Identity(q.pid, q.ticks, q.exe, q.ns, p) else Identity(q.pid, q.ticks, 0, 0, p)
  }

  /** A lock nobody has open any more is free. */
  function Settled(lock: Option<nat>, commands: seq<Command>): Option<nat>
  {
    if lock.Some? && lock.value < |commands| && commands[lock.value].holders == {} then None else lock
  }

  function WithCommand(s: State, c: nat, command: Command): State
    requires c < |s.commands|
  {
    var commands := s.commands[c := command];
    s.(commands := commands, lock := Settled(s.lock, commands))
  }

  function Dropped(commands: seq<Command>, p: nat): (r: seq<Command>)
    ensures |r| == |commands|
    ensures forall i :: 0 <= i < |r| ==> r[i] == commands[i].(holders := commands[i].holders - {Child(p)})
  {
    seq(|commands|, i requires 0 <= i < |commands| => commands[i].(holders := commands[i].holders - {Child(p)}))
  }

  ghost function Apply(s: State, step: Step): State
    requires Enabled(s, step)
  {
    match step
    case Open(kind) => s.(commands := s.commands + [Command(kind, Opened, None, {Parent}, None, None, false)])
    case TryLock(c) =>
      if s.lock.None? && Parent in s.commands[c].holders
      then s.(lock := Some(c), commands := s.commands[c := s.commands[c].(pc := Holding)])
      else WithCommand(s, c, s.commands[c].(pc := Busy))
    case CheckRecord(c) =>
      if RecordedInitLive(s)
      then s.(lock := None, commands := s.commands[c := s.commands[c].(pc := Released)])
      else WithCommand(s, c, s.commands[c].(pc := Checked))
    case Unlock(c) =>
      s.(lock := None,
         commands := s.commands[c := s.commands[c].(pc := Released, owes := s.commands[c].kind == ForceStopCommand)])
    case ForkSupervisor(c, p) =>
      var child := |s.processes|;
      s.(processes := s.processes + [p], live := s.live + {child},
         commands := s.commands[c := s.commands[c].(pc := Forked, supervisor := Some(child),
                                                   holders := {Parent, Child(child)})])
    case ReadRecord(c) => WithCommand(s, c, s.commands[c].(snapshot := s.record))
    case SignalSupervisor(c, target) =>
      s.(signals := s.signals + [Signal(target, s.commands[c].snapshot.value.supervisor)])
    case SignalInit(c, target) =>
      s.(signals := s.signals + [Signal(target, s.commands[c].snapshot.value.init)])
    case ClearRecord(c, stale) => WithCommand(s, c, s.commands[c].(owes := false)).(record := Some(stale))
    case GiveUp(c) => WithCommand(s, c, s.commands[c].(owes := false))
    case CloseDescriptor(c) =>
      WithCommand(s, c, s.commands[c].(pc := Gone, holders := s.commands[c].holders - {Parent}))
    case ForkChild(c, p, asInit) =>
      var child := |s.processes|;
      var command := s.commands[c].(holders := s.commands[c].holders + {Child(child)},
                                    init := if asInit then Some(child) else s.commands[c].init);
      s.(processes := s.processes + [p], live := s.live + {child}, commands := s.commands[c := command])
    case ChildCloses(c, child) =>
      WithCommand(s, c, s.commands[c].(holders := s.commands[c].holders - {Child(child)}))
    case WriteRecord(c, mode, complete) =>
      s.(record := Some(Record(mode, Identify(s, s.commands[c].supervisor, true),
                               Identify(s, s.commands[c].init, complete))))
    case Exit(p) =>
      var commands := Dropped(s.commands, p);
      s.(live := s.live - {p}, commands := commands, lock := Settled(s.lock, commands))
    case SpawnOther(p) => s.(processes := s.processes + [p], live := s.live + {|s.processes|})
  }

  ghost predicate Legal(steps: seq<Step>)
    decreases |steps|, 0
  {
    steps == [] || (Legal(steps[..|steps| - 1]) && Enabled(After(steps[..|steps| - 1]), steps[|steps| - 1]))
  }

  ghost function After(steps: seq<Step>): State
    requires Legal(steps)
    decreases |steps|, 1
  {
    if steps == [] then INITIAL else Apply(After(steps[..|steps| - 1]), steps[|steps| - 1])
  }

  // ---------------------------------------------------------------- invariants

  /** A command holds the lock or its lineage does; nobody else. */
  ghost predicate LockInv(lock: Option<nat>, commands: seq<Command>)
  {
    && (lock.Some? ==> lock.value < |commands|)
    && forall c :: 0 <= c < |commands| ==> CommandInv(lock, commands[c], c)
  }

  ghost predicate CommandInv(lock: Option<nat>, m: Command, c: nat)
  {
    && (m.pc == Holding || m.pc == Checked ==> lock == Some(c) && m.holders == {Parent} && m.supervisor.None?)
    && (m.pc == Opened || m.pc == Busy || m.pc == Released ==>
          lock != Some(c) && m.holders <= {Parent} && m.supervisor.None?)
    && (m.supervisor.None? ==> m.holders <= {Parent} && m.pc != Forked)
    && (m.pc == Gone ==> Parent !in m.holders)
    && (m.supervisor.Some? && m.holders != {} ==> lock == Some(c))
    && (m.holders == {} ==> lock != Some(c))
    && (m.supervisor.Some? ==> m.kind == StartCommand)
    && (m.pc == Checked ==> m.kind == StartCommand)
  }

  ghost predicate ProcessInv(s: State)
  {
    TableInv(s.processes, s.live)
  }

  /** A complete identity names the incarnation it was captured from. */
  predicate Captured(processes: seq<Process>, id: Identity)
  {
    id.ticks != 0 ==>
      id.of.Some? && id.of.value < |processes|
      && processes[id.of.value].pid == id.pid && processes[id.of.value].ticks == id.ticks
  }

  predicate CapturedRecord(processes: seq<Process>, r: Option<Record>)
  {
    r.Some? ==> Captured(processes, r.value.supervisor) && Captured(processes, r.value.init)
  }

  ghost predicate RecordInv(s: State)
  {
    && CapturedRecord(s.processes, s.record)
    && (forall c :: 0 <= c < |s.commands| ==> CapturedRecord(s.processes, s.commands[c].snapshot))
    && (forall k :: 0 <= k < |s.signals| ==> s.signals[k].identity.of == Some(s.signals[k].target))
  }

  ghost predicate CheckedInv(s: State)
  {
    (exists c :: 0 <= c < |s.commands| && s.commands[c].pc == Checked) ==> !RecordedInitLive(s)
  }

  ghost predicate Inv(s: State)
  {
    LockInv(s.lock, s.commands) && ProcessInv(s) && RecordInv(s) && CheckedInv(s)
  }

  /** pid and start time determine the incarnation, so a live match is the one
      that was recorded. */
  lemma MatchIsTheRecordedOne(s: State, id: Identity, p: nat)
    requires ProcessInv(s) && Captured(s.processes, id) && id.ticks != 0 && IsProcess(s, id, p)
    ensures id.of == Some(p)
  {
  }

  lemma SamePidIsSameProcess(s: State, p: nat, q: nat)
    requires ProcessInv(s) && p in s.live && q in s.live && p < |s.processes| && q < |s.processes|
    requires s.processes[p].pid == s.processes[q].pid
    ensures p == q
  {
  }

  predicate TakesOrGivesLock(step: Step)
  {
    step.TryLock? || step.CheckRecord? || step.Unlock? || step.ForkSupervisor? || step.CloseDescriptor?
  }

  lemma LockStepsKept(s: State, step: Step)
    requires LockInv(s.lock, s.commands) && Enabled(s, step) && TakesOrGivesLock(step)
    ensures LockInv(Apply(s, step).lock, Apply(s, step).commands)
  {
  }

  lemma OtherStepsKept(s: State, step: Step)
    requires LockInv(s.lock, s.commands) && Enabled(s, step) && !TakesOrGivesLock(step)
    ensures LockInv(Apply(s, step).lock, Apply(s, step).commands)
  {
  }

  /** The same on the process table alone. */
  ghost predicate TableInv(processes: seq<Process>, live: set<nat>)
  {
    && (forall p :: p in live ==> p < |processes|)
    && (forall p, q :: 0 <= p < q < |processes| && processes[p].pid == processes[q].pid ==>
          processes[p].ticks < processes[q].ticks)
    && (forall p, q :: 0 <= p < q < |processes| && p in live && q in live ==> processes[p].pid != processes[q].pid)
  }

  lemma SpawnKept(s: State, p: Process)
    requires TableInv(s.processes, s.live) && CanSpawn(s, p)
    ensures TableInv(s.processes + [p], s.live + {|s.processes|})
  {
  }

  lemma ProcessesKept(s: State, step: Step)
    requires ProcessInv(s) && Enabled(s, step)
    ensures ProcessInv(Apply(s, step))
  {
    if step.ForkSupervisor? || step.ForkChild? || step.SpawnOther? { SpawnKept(s, step.process); }
  }

  lemma SignalKept(s: State, id: Identity, target: nat)
    requires ProcessInv(s) && Captured(s.processes, id) && ValidProcess(s, id)
    requires target < |s.processes| && target in s.live && s.processes[target].pid == id.pid
    ensures id.of == Some(target)
  {
    var p: nat :| IsProcess(s, id, p);
    MatchIsTheRecordedOne(s, id, p);
    SamePidIsSameProcess(s, p, target);
  }

  lemma SignalsKept(s: State, step: Step)
    requires ProcessInv(s) && RecordInv(s) && Enabled(s, step)
    requires step.SignalSupervisor? || step.SignalInit?
    ensures RecordInv(Apply(s, step))
  {
    var r := s.commands[step.c].snapshot.value;
    SignalKept(s, if step.SignalInit? then r.init else r.supervisor, step.target);
  }

  lemma RecordsKept(s: State, step: Step)
    requires ProcessInv(s) && RecordInv(s) && Enabled(s, step)
    ensures RecordInv(Apply(s, step))
  {
    if step.SignalSupervisor? || step.SignalInit? { SignalsKept(s, step); }
  }

  /** A new process cannot be mistaken for the recorded init, and a dead one does
      not come back. */
  lemma NoResurrection(s: State, t: State)
    requires ProcessInv(s) && ProcessInv(t) && CapturedRecord(s.processes, s.record)
    requires t.record == s.record && |s.processes| <= |t.processes|
    requires forall p :: 0 <= p < |s.processes| ==> t.processes[p] == s.processes[p]
    requires forall p :: p in t.live && p < |s.processes| ==> p in s.live
    requires RecordedInitLive(t)
    ensures RecordedInitLive(s)
  {
    var r := s.record.value;
    var p: nat :| IsProcess(t, r.init, p) && (r.mode == Systemd ==> t.processes[p].ns == r.init.ns) by {
      if r.mode == Systemd {
        var q: nat :| IsProcess(t, r.init, q) && t.processes[q].ns == r.init.ns;
      }
    }
    MatchIsTheRecordedOne(t, r.init, p);
    assert IsProcess(s, r.init, p);
  }

  lemma CheckedKept(s: State, step: Step)
    requires Inv(s) && Enabled(s, step)
    requires ProcessInv(Apply(s, step))
    ensures CheckedInv(Apply(s, step))
  {
    var t := Apply(s, step);
    if step.WriteRecord? {
      forall c | 0 <= c < |s.commands| ensures s.commands[c].pc != Checked {
        WriterExcludesChecker(s, step.c, c);
      }
    } else if !step.ClearRecord? && RecordedInitLive(t) {
      NoResurrection(s, t);
    }
  }

  lemma WriterExcludesChecker(s: State, w: nat, c: nat)
    requires LockInv(s.lock, s.commands) && Supervises(s, w) && c < |s.commands|
    ensures s.commands[c].pc != Checked
  {
    assert CommandInv(s.lock, s.commands[c], c) && CommandInv(s.lock, s.commands[w], w);
  }

  lemma {:induction false} ReachableInv(steps: seq<Step>)
    requires Legal(steps)
    ensures Inv(After(steps))
    decreases |steps|
  {
    if steps != [] {
      var s, step := After(steps[..|steps| - 1]), steps[|steps| - 1];
      ReachableInv(steps[..|steps| - 1]);
      if TakesOrGivesLock(step) { LockStepsKept(s, step); } else { OtherStepsKept(s, step); }
      ProcessesKept(s, step);
      RecordsKept(s, step);
      CheckedKept(s, step);
    }
  }

  // -------------------------------------------------------------- main results

  /** Lineage c is running: a supervisor was forked and some process of it still
      has the lock file open. */
  predicate Running(s: State, c: nat)
  {
    c < |s.commands| && s.commands[c].supervisor.Some? && s.commands[c].holders != {}
  }

  /** However commands interleave, at most one supervisor lineage runs, and while
      it runs the lock is its own. */
  lemma AtMostOneLineage(steps: seq<Step>, c: nat, d: nat)
    requires Legal(steps)
    requires Running(After(steps), c) && Running(After(steps), d)
    ensures c == d && After(steps).lock == Some(c)
  {
    ReachableInv(steps);
    var s := After(steps);
    assert CommandInv(s.lock, s.commands[c], c) && CommandInv(s.lock, s.commands[d], d);
  }

  /** A start forks only while it holds the lock itself, no other lineage runs, and
      no live process matches the recorded init. */
  lemma StartForksOnlyWhenAlone(steps: seq<Step>, c: nat, p: Process, d: nat)
    requires Legal(steps) && Enabled(After(steps), ForkSupervisor(c, p))
    ensures After(steps).lock == Some(c)
    ensures !Running(After(steps), d)
    ensures !RecordedInitLive(After(steps))
  {
    ReachableInv(steps);
    var s := After(steps);
    assert CommandInv(s.lock, s.commands[c], c);
    if d < |s.commands| { assert CommandInv(s.lock, s.commands[d], d); }
  }

  /** Every identity-checked signal a stop or force-stop ever delivered went to the very
      incarnation whose identity had been recorded, however often pids were reused. */
  lemma SignalsReachOnlyTheRecorded(steps: seq<Step>, k: nat)
    requires Legal(steps) && k < |After(steps).signals|
    ensures After(steps).signals[k].identity.of == Some(After(steps).signals[k].target)
  {
    ReachableInv(steps);
  }

  /** Status and stop commands give the lock back: a free lock is never blocked by a
      command that already released or closed it. */
  lemma {:induction false} LockHeldMeansSomebodyHasIt(steps: seq<Step>)
    requires Legal(steps) && After(steps).lock.Some?
    ensures var s := After(steps);
            var c := s.lock.value;
            c < |s.commands| && s.commands[c].holders != {} && s.commands[c].pc != Released
            && (Running(s, c) || s.commands[c].pc == Holding || s.commands[c].pc == Checked)
  {
    ReachableInv(steps);
    var s := After(steps);
    assert CommandInv(s.lock, s.commands[s.lock.value], s.lock.value);
  }

  // ------------------------------------------------ an unlocked late record write

  ghost predicate Reachable(s: State)
  {
    exists steps: seq<Step> :: Legal(steps) && After(steps) == s
  }

  lemma Take(s: State, step: Step) returns (t: State)
    requires Reachable(s) && Enabled(s, step)
    ensures t == Apply(s, step) && Reachable(t)
  {
    var steps: seq<Step> :| Legal(steps) && After(steps) == s;
    var more := steps + [step];
    assert more[..|more| - 1] == steps;
    t := Apply(s, step);
    assert Legal(more) && After(more) == t;
  }

  lemma ForceStopReleases() returns (s: State)
    ensures Reachable(s)
    ensures s == INITIAL.(commands := [Command(ForceStopCommand, Released, None, {Parent}, None, None, true)])
  {
    assert Legal([]) && After([]) == INITIAL;
    s := Take(INITIAL, Open(ForceStopCommand));
    s := Take(s, TryLock(0));
    s := Take(s, Unlock(0));
  }

  /** A start after that, up to its fork. */
  lemma StartForks(released: Command, p: Process) returns (s: State)
    requires released == Command(ForceStopCommand, Released, None, {Parent}, None, None, true)
    ensures Reachable(s)
    ensures s == State(Some(1), [released, Command(StartCommand, Forked, None, {Parent, Child(0)}, Some(0), None, false)],
                       [p], {0}, None, [])
  {
    s := ForceStopReleases();
    s := Take(s, Open(StartCommand));
    s := Take(s, TryLock(1));
    s := Take(s, CheckRecord(1));
    s := Take(s, ForkSupervisor(1, p));
    assert s.commands == [released, Command(StartCommand, Forked, None, {Parent, Child(0)}, Some(0), None, false)];
    assert s.processes == [p] && s.live == {0};
  }

  /** Force-stop writes its cleared record after giving the lock back, so it can
      erase the record of a supervisor that started meanwhile: the lineage runs and
      holds the lock, but no command that reads the record can signal it. */
  lemma ForceStopCanHideARunningSupervisor() returns (s: State, c: nat)
    ensures Reachable(s) && Running(s, c)
    ensures s.record.Some? && !ValidProcess(s, s.record.value.supervisor) && !ValidInit(s, s.record.value)
  {
    s := StartForks(Command(ForceStopCommand, Released, None, {Parent}, None, None, true), Process(100, 7, 9, 3));
    c := 1;
    assert Supervises(s, 1);
    s := Take(s, WriteRecord(1, Systemd, true));
    s := Take(s, ClearRecord(0, Record(Systemd, NOBODY, NOBODY)));
  }
}
