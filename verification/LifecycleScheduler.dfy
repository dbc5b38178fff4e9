/** The Android service's lifecycle requests: submissions that may preempt the
    newest task, run by a single-threaded first-in first-out executor that dies
    with the service instance.  With the BFU mode off, a task that ends asks the
    system to stop the service; destroying it shuts the executor down. */
module LifecycleScheduler {
  import opened Options

  datatype Operation = Start | Stop | ForceStop | Restart | Status

  datatype Kind = Lifecycle(operation: Operation) | Settings(docker: bool)

  /** Queued, Running and Closing tasks are unfinished.  A Closing settings task has
      cleared the docker flag; a Finished one has left its final critical section; a
      Returned one has checked the mode; only then is its future done. */
  datatype Phase = Queued | Running | Closing | Finished | Returned | Done

  /** `skipped`: cancelled before it started, so it never ran.  `interrupted`: its
      thread was interrupted before its body finished. */
  datatype Task = Task(kind: Kind, phase: Phase, cancelled: bool, skipped: bool, interrupted: bool)

  /** One service instance.  Tasks in submission order: the request id of a task is its
      index plus one, and the newest one is `lifecycleFuture`.  `cut` is None while the
      instance lives; afterwards it tells which tasks were unfinished at the end. */
  datatype Service = Service(tasks: seq<Task>, active: Option<Operation>, started: bool, dockerStarted: bool,
                             cut: Option<set<nat>>)
  {
    function Newest(): Task
      requires tasks != []
    {
      tasks[|tasks| - 1]
    }
  }

  const FRESH: Service := Service([], None, false, false, None)

  /** All instances, the living one last; whether the BFU mode is on; whether the
      system has been asked to stop the living instance. */
  datatype World = World(services: seq<Service>, enabled: bool, stopping: bool)
  {
    function Live(): Service
      requires services != []
    {
      services[|services| - 1]
    }
  }

  predicate Urgent(op: Operation)
  {
    op == Stop || op == ForceStop || op == Restart
  }

  predicate InBody(t: Task)
  {
    t.phase == Running || t.phase == Closing
  }

  predicate Unfinished(t: Task)
  {
    t.phase == Queued || InBody(t)
  }

  /** `Future.isDone()`: completed or cancelled. */
  predicate FutureDone(t: Task)
  {
    t.phase == Done || t.cancelled
  }

  predicate Occupied(s: Service)
  {
    s.tasks != [] && !FutureDone(s.Newest())
  }

  // ------------------------------------------------------- one service instance

  function Submit(tasks: seq<Task>, kind: Kind): seq<Task>
  {
    tasks + [Task(kind, Queued, false, false, false)]
  }

  /** `cancel(true)`: a running body is interrupted, a queued one will be skipped. */
  function Cancelled(t: Task): Task
  {
    t.(cancelled := true, interrupted := t.interrupted || InBody(t))
  }

  function CancelNewest(tasks: seq<Task>): seq<Task>
    requires tasks != []
  {
    tasks[|tasks| - 1 := Cancelled(tasks[|tasks| - 1])]
  }

  /** Whether a request for `op` is refused because of the one in its way. */
  predicate Blocked(s: Service, op: Operation)
  {
    Occupied(s) && (!Urgent(op) || s.active == Some(op) || s.active == Some(Stop) || s.active == Some(ForceStop))
  }

  predicate Accepts(s: Service, op: Operation, management: bool)
  {
    !(op == Restart && management) && !Blocked(s, op)
  }

  function RequestState(s: Service, op: Operation, management: bool): Service
  {
    if !Accepts(s, op, management) then s
    else
      var kept := if Occupied(s) then CancelNewest(s.tasks) else s.tasks;
      s.(tasks := Submit(kept, Lifecycle(op)), active := Some(op), started := true)
  }

  function SettingsState(s: Service, docker: bool, management: bool): Service
  {
    if management || Occupied(s) then s
    else s.(tasks := Submit(s.tasks, Settings(docker)), active := None, started := true,
            dockerStarted := s.dockerStarted || docker)
  }

  datatype Move =
    | Skip(index: nat)        // the executor drops a cancelled task
    | Begin(index: nat)
    | CloseDocker(index: nat) // a settings task clears the docker flag, if it set it
    | EndBody(index: nat)     // leaves the critical section of its finally block
    | Leave(index: nat)       // checks the mode
    | Complete(index: nat)

  predicate EarlierDone(tasks: seq<Task>, i: nat)
  {
    forall j :: 0 <= j < i && j < |tasks| ==> tasks[j].phase == Done
  }

  /** A destroyed instance starts no task any more; those running go on. */
  predicate CanMove(s: Service, m: Move)
  {
    var i := m.index;
    i < |s.tasks| &&
    match m
    case Skip(_) => s.cut.None? && s.tasks[i].phase == Queued && s.tasks[i].cancelled && EarlierDone(s.tasks, i)
    case Begin(_) => s.cut.None? && s.tasks[i].phase == Queued && !s.tasks[i].cancelled && EarlierDone(s.tasks, i)
    case CloseDocker(_) => s.tasks[i].phase == Running && s.tasks[i].kind.Settings?
    case EndBody(_) => s.tasks[i].phase == if s.tasks[i].kind.Settings? then Closing else Running
    case Leave(_) => s.tasks[i].phase == Finished
    case Complete(_) => s.tasks[i].phase == Returned
  }

  function SetPhase(tasks: seq<Task>, i: nat, phase: Phase, skipped: bool): seq<Task>
    requires i < |tasks|
  {
    tasks[i := tasks[i].(phase := phase, skipped := skipped)]
  }

  function NextPhase(m: Move): Phase
  {
    match m
    case Skip(_) => Done
    case Begin(_) => Running
    case CloseDocker(_) => Closing
    case EndBody(_) => Finished
    case Leave(_) => Returned
    case Complete(_) => Done
  }

  function Moved(s: Service, m: Move): Service
    requires CanMove(s, m)
  {
    var i := m.index;
    var t := s.(tasks := SetPhase(s.tasks, i, NextPhase(m), s.tasks[i].skipped || m.Skip?));
    if m.CloseDocker? && s.tasks[i].kind == Settings(true) then t.(dockerStarted := false)
    else if m.EndBody? && i == |s.tasks| - 1 then t.(active := None, started := false)
    else t
  }

  /** `onDestroy`: `shutdownNow` drops what is queued and interrupts what runs. */
  function ShutDown(s: Service): Service
  {
    s.(tasks := seq(|s.tasks|, i requires 0 <= i < |s.tasks| =>
                      s.tasks[i].(interrupted := s.tasks[i].interrupted || InBody(s.tasks[i]))),
       cut := Some(set i: nat | i < |s.tasks| && Unfinished(s.tasks[i])))
  }

  // ------------------------------------------------------------------ all of it

  datatype Step =
    | Request(operation: Operation, management: bool)  // what managementOperationRunning() answered
    | ApplySettings(docker: bool, management: bool)
    | SetMode(on: bool)
    | OtherStopSelf   // an entry that is not allowed, or rootfs removal, while the mode is off
    | Destroy
    | MoveTask(service: nat, move: Move)

  /** The settings check runs under the lock, so it sees the docker flag. */
  predicate Enabled(w: World, step: Step)
  {
    w.services != [] &&
    match step
    case Request(_, _) => true
    case ApplySettings(_, management) => w.Live().dockerStarted ==> management
    case SetMode(_) => true
    case OtherStopSelf => !w.enabled
    case Destroy => w.stopping
    case MoveTask(k, m) => k < |w.services| && CanMove(w.services[k], m)
  }

  function WithLive(w: World, s: Service): World
    requires w.services != []
  {
    w.(services := w.services[|w.services| - 1 := s])
  }

  function Apply(w: World, step: Step): World
    requires Enabled(w, step)
  {
    match step
    case Request(op, management) => WithLive(w, RequestState(w.Live(), op, management))
    case ApplySettings(docker, management) => WithLive(w, SettingsState(w.Live(), docker, management))
    case SetMode(on) => w.(enabled := on)
    case OtherStopSelf => w.(stopping := true)
    case Destroy => w.(services := WithLive(w, ShutDown(w.Live())).services + [FRESH], stopping := false)
    case MoveTask(k, m) =>
      w.(services := w.services[k := Moved(w.services[k], m)],
         stopping := w.stopping || (m.Leave? && !w.enabled && k == |w.services| - 1))
  }

  function Initial(enabled: bool): World
  {
    World([FRESH], enabled, false)
  }

  ghost predicate LegalFrom(o: World, steps: seq<Step>)
    decreases |steps|, 0
  {
    steps == [] || (LegalFrom(o, steps[..|steps| - 1]) && Enabled(AfterFrom(o, steps[..|steps| - 1]), steps[|steps| - 1]))
  }

  ghost function AfterFrom(o: World, steps: seq<Step>): World
    requires LegalFrom(o, steps)
    decreases |steps|, 1
  {
    if steps == [] then o else Apply(AfterFrom(o, steps[..|steps| - 1]), steps[|steps| - 1])
  }

  // ------------------------------------------------------------- what runs keep

  function Rank(k: Kind): nat
  {
    match k
    case Settings(_) => 0
    case Lifecycle(op) => if op == Stop || op == ForceStop then 2 else if op == Restart then 1 else 0
  }

  predicate IsStop(k: Kind)
  {
    k == Lifecycle(Stop) || k == Lifecycle(ForceStop)
  }

  ghost predicate QueueInv(tasks: seq<Task>)
  {
    // first in, first out, one at a time
    && (forall i, j :: 0 <= i < j < |tasks| && tasks[j].phase != Queued ==> tasks[i].phase == Done)
    // only the newest task can be neither cancelled nor done
    && (forall i :: 0 <= i < |tasks| - 1 ==> FutureDone(tasks[i]))
    && (tasks != [] ==> !tasks[|tasks| - 1].cancelled)
    && (forall i :: 0 <= i < |tasks| && tasks[i].skipped ==> tasks[i].phase == Done && tasks[i].cancelled)
  }

  ghost predicate PreemptionInv(tasks: seq<Task>)
  {
    // a stop is never cancelled before its body has finished
    && (forall i :: 0 <= i < |tasks| && IsStop(tasks[i].kind) && tasks[i].cancelled ==>
          !Unfinished(tasks[i]) && !tasks[i].skipped)
    // ranks rise along the unfinished tasks
    && (forall i, j :: 0 <= i < j < |tasks| && Unfinished(tasks[i]) && Unfinished(tasks[j]) ==>
          Rank(tasks[i].kind) < Rank(tasks[j].kind))
  }

  ghost predicate FlagInv(s: Service)
  {
    && (s.started <==> s.tasks != [] && Unfinished(s.Newest()))
    && s.active == if s.started && s.Newest().kind.Lifecycle? then Some(s.Newest().kind.operation) else None
  }

  /** A docker settings task that holds the flag: not yet past the clearing, or dropped
      before it ran. */
  predicate HoldsDocker(t: Task)
  {
    t.kind == Settings(true) && (t.phase == Queued || t.phase == Running || t.skipped)
  }

  ghost predicate DockerInv(s: Service)
  {
    && (s.dockerStarted <==> exists i :: 0 <= i < |s.tasks| && HoldsDocker(s.tasks[i]))
    && (forall i, j :: 0 <= i < j < |s.tasks| && HoldsDocker(s.tasks[i]) ==> !HoldsDocker(s.tasks[j]))
  }

  /** An accepted task that does not get to run its body to the end undisturbed. */
  predicate Disturbed(s: Service, i: nat)
  {
    i < |s.tasks| &&
    (s.tasks[i].interrupted || s.tasks[i].skipped || (s.tasks[i].cancelled && Unfinished(s.tasks[i]))
     || (s.cut.Some? && s.tasks[i].phase == Queued))
  }

  /** A stop is disturbed exactly when its instance died before it finished. */
  ghost predicate LossInv(s: Service)
  {
    && (s.cut.Some? ==> forall i :: i in s.cut.value ==> i < |s.tasks|)
    && forall i :: 0 <= i < |s.tasks| && IsStop(s.tasks[i].kind) ==>
         (Disturbed(s, i) <==> s.cut.Some? && i in s.cut.value)
  }

  ghost predicate ServiceInv(s: Service)
  {
    QueueInv(s.tasks) && PreemptionInv(s.tasks) && FlagInv(s) && DockerInv(s) && LossInv(s)
  }

  ghost predicate Inv(w: World)
  {
    && w.services != [] && (forall k :: 0 <= k < |w.services| ==> ServiceInv(w.services[k]))
    && (forall k :: 0 <= k < |w.services| ==> (w.services[k].cut.None? <==> k == |w.services| - 1))
  }

  // ----------------------------------------------------------------- submissions

  /** Submitting, after cancelling the newest task if it was in the way. */
  ghost predicate Submits(s: Service, t: Service, kind: Kind)
  {
    && (Occupied(s) && Unfinished(s.Newest()) ==> Rank(s.Newest().kind) < Rank(kind) && !IsStop(s.Newest().kind))
    && (kind == Settings(true) ==> !s.dockerStarted)
    && t == s.(tasks := Submit(if Occupied(s) then CancelNewest(s.tasks) else s.tasks, kind),
               active := if kind.Lifecycle? then Some(kind.operation) else None, started := true,
               dockerStarted := s.dockerStarted || kind == Settings(true))
  }

  lemma SubmitKeepsQueue(s: Service, t: Service, kind: Kind)
    requires QueueInv(s.tasks) && PreemptionInv(s.tasks) && Submits(s, t, kind)
    ensures QueueInv(t.tasks) && PreemptionInv(t.tasks)
  {
    var n := |s.tasks|;
    forall i | 0 <= i < n && Unfinished(s.tasks[i])
      ensures Rank(s.tasks[i].kind) < Rank(kind)
    {
      assert s.tasks[i].phase != Done;
      assert i < n - 1 ==> s.tasks[n - 1].phase == Queued;
    }
  }

  lemma SubmitKeepsDocker(s: Service, t: Service, kind: Kind)
    requires DockerInv(s) && Submits(s, t, kind)
    ensures DockerInv(t)
  {
    var n := |s.tasks|;
    assert forall i :: 0 <= i < n ==> HoldsDocker(t.tasks[i]) == HoldsDocker(s.tasks[i]);
    assert HoldsDocker(t.tasks[n]) <==> kind == Settings(true);
    if s.dockerStarted {
      var i :| 0 <= i < n && HoldsDocker(s.tasks[i]);
      assert HoldsDocker(t.tasks[i]);
    }
  }

  lemma SubmitKeepsLoss(s: Service, t: Service, kind: Kind)
    requires LossInv(s) && s.cut.None? && Submits(s, t, kind)
    ensures LossInv(t)
  {
    var n := |s.tasks|;
    forall i | 0 <= i < n && IsStop(t.tasks[i].kind) ensures !Disturbed(t, i) {
      assert !Disturbed(s, i);
    }
  }

  lemma SubmitKeeps(s: Service, t: Service, kind: Kind)
    requires ServiceInv(s) && s.cut.None? && Submits(s, t, kind)
    ensures ServiceInv(t)
  {
    SubmitKeepsQueue(s, t, kind);
    SubmitKeepsDocker(s, t, kind);
    SubmitKeepsLoss(s, t, kind);
  }

  lemma RequestKeeps(s: Service, op: Operation, management: bool)
    requires ServiceInv(s) && s.cut.None?
    ensures ServiceInv(RequestState(s, op, management))
  {
    var t := RequestState(s, op, management);
    if Accepts(s, op, management) {
      SubmitKeeps(s, t, Lifecycle(op));
    }
  }

  lemma SettingsKeeps(s: Service, docker: bool, management: bool)
    requires ServiceInv(s) && s.cut.None? && (s.dockerStarted ==> management)
    ensures ServiceInv(SettingsState(s, docker, management))
  {
    if !management && !Occupied(s) {
      SubmitKeeps(s, SettingsState(s, docker, management), Settings(docker));
    }
  }

  // ----------------------------------------------------------------------- moves

  /** Around a task that moves: all earlier ones are done, all later ones queued. */
  lemma MoveIsNext(s: Service, m: Move)
    requires QueueInv(s.tasks) && CanMove(s, m)
    ensures EarlierDone(s.tasks, m.index) && s.tasks[m.index].phase != Done
    ensures forall j :: m.index < j < |s.tasks| ==> s.tasks[j].phase == Queued
  {
    var i := m.index;
    assert forall j :: 0 <= j < i && s.tasks[i].phase != Queued ==> s.tasks[j].phase == Done;
    assert forall j :: i < j < |s.tasks| && s.tasks[j].phase != Queued ==> s.tasks[i].phase == Done;
  }

  lemma PhaseKeepsQueue(tasks: seq<Task>, i: nat, x: Task)
    requires QueueInv(tasks) && i < |tasks| && EarlierDone(tasks, i)
    requires forall j :: i < j < |tasks| ==> tasks[j].phase == Queued
    requires x.phase != Queued && x.cancelled == tasks[i].cancelled && (x.skipped ==> x.phase == Done && x.cancelled)
    requires FutureDone(tasks[i]) ==> FutureDone(x)
    ensures QueueInv(tasks[i := x])
  {
  }

  lemma MoveKeepsQueue(s: Service, m: Move)
    requires QueueInv(s.tasks) && CanMove(s, m)
    ensures QueueInv(Moved(s, m).tasks)
  {
    MoveIsNext(s, m);
    PhaseKeepsQueue(s.tasks, m.index, Moved(s, m).tasks[m.index]);
  }

  lemma MoveKeepsPreemption(s: Service, m: Move)
    requires PreemptionInv(s.tasks) && CanMove(s, m)
    ensures PreemptionInv(Moved(s, m).tasks)
  {
    var i, t := m.index, Moved(s, m);
    assert forall j :: 0 <= j < |s.tasks| && j != i ==> t.tasks[j] == s.tasks[j];
    assert Unfinished(t.tasks[i]) ==> Unfinished(s.tasks[i]);
    assert m.Skip? ==> !IsStop(s.tasks[i].kind);
  }

  lemma MoveKeepsFlags(s: Service, m: Move)
    requires FlagInv(s) && CanMove(s, m)
    requires s.tasks != [] ==> !s.Newest().cancelled
    ensures FlagInv(Moved(s, m))
  {
  }

  lemma MoveKeepsDocker(s: Service, m: Move)
    requires DockerInv(s) && QueueInv(s.tasks) && CanMove(s, m)
    ensures DockerInv(Moved(s, m))
  {
    var i, t := m.index, Moved(s, m);
    assert forall j :: 0 <= j < |s.tasks| && j != i ==> t.tasks[j] == s.tasks[j];
    assert HoldsDocker(t.tasks[i]) ==> HoldsDocker(s.tasks[i]);
    if j :| 0 <= j < |s.tasks| && HoldsDocker(s.tasks[j]) && (j != i || HoldsDocker(t.tasks[i])) {
      assert HoldsDocker(t.tasks[j]);
    }
  }

  lemma MoveKeepsLoss(s: Service, m: Move)
    requires LossInv(s) && PreemptionInv(s.tasks) && CanMove(s, m)
    ensures LossInv(Moved(s, m))
  {
    var i, t := m.index, Moved(s, m);
    forall j | 0 <= j < |s.tasks| && IsStop(t.tasks[j].kind)
      ensures Disturbed(t, j) <==> Disturbed(s, j)
    {
      assert j != i ==> t.tasks[j] == s.tasks[j];
    }
  }

  lemma MoveKeeps(s: Service, m: Move)
    requires ServiceInv(s) && CanMove(s, m)
    ensures ServiceInv(Moved(s, m)) && Moved(s, m).cut == s.cut
  {
    MoveKeepsQueue(s, m);
    MoveKeepsPreemption(s, m);
    MoveKeepsFlags(s, m);
    MoveKeepsDocker(s, m);
    MoveKeepsLoss(s, m);
  }

  lemma ShutDownKeeps(s: Service)
    requires ServiceInv(s) && s.cut.None?
    ensures ServiceInv(ShutDown(s)) && ShutDown(s).cut.Some?
  {
    ShutDownKeepsQueue(s);
    ShutDownKeepsDocker(s);
    ShutDownKeepsLoss(s);
  }

  lemma ShutDownKeepsQueue(s: Service)
    requires QueueInv(s.tasks) && PreemptionInv(s.tasks) && FlagInv(s)
    ensures QueueInv(ShutDown(s).tasks) && PreemptionInv(ShutDown(s).tasks) && FlagInv(ShutDown(s))
  {
  }

  lemma ShutDownKeepsDocker(s: Service)
    requires DockerInv(s)
    ensures DockerInv(ShutDown(s))
  {
    assert forall i :: 0 <= i < |s.tasks| ==> HoldsDocker(ShutDown(s).tasks[i]) == HoldsDocker(s.tasks[i]);
  }

  lemma ShutDownKeepsLoss(s: Service)
    requires LossInv(s) && s.cut.None?
    ensures LossInv(ShutDown(s))
  {
    var t := ShutDown(s);
    forall i | 0 <= i < |t.tasks| && IsStop(t.tasks[i].kind)
      ensures Disturbed(t, i) <==> i in t.cut.value
    {
      assert !Disturbed(s, i);
    }
  }

  lemma ReplaceKeeps(w: World, k: nat, s: Service)
    requires Inv(w) && k < |w.services| && ServiceInv(s) && s.cut.None? == w.services[k].cut.None?
    ensures Inv(w.(services := w.services[k := s]))
  {
  }

  lemma DestroyKeeps(w: World)
    requires Inv(w) && Enabled(w, Destroy)
    ensures Inv(Apply(w, Destroy))
  {
    ShutDownKeeps(w.Live());
    FreshAfter(w, ShutDown(w.Live()));
  }

  lemma FreshAfter(w: World, ended: Service)
    requires Inv(w) && ServiceInv(ended) && ended.cut.Some?
    ensures Inv(World(w.services[|w.services| - 1 := ended] + [FRESH], w.enabled, false))
  {
    FreshIsValid();
    var n := |w.services|;
    var services := w.services[n - 1 := ended] + [FRESH];
    assert services[n] == FRESH && services[n - 1] == ended && forall k :: 0 <= k < n - 1 ==> services[k] == w.services[k];
  }

  lemma FreshIsValid()
    ensures ServiceInv(FRESH)
  {
  }

  lemma StepKeeps(w: World, step: Step)
    requires Inv(w) && Enabled(w, step)
    ensures Inv(Apply(w, step))
  {
    var last := |w.services| - 1;
    match step
    case Request(op, management) =>
      RequestKeeps(w.Live(), op, management);
      ReplaceKeeps(w, last, RequestState(w.Live(), op, management));
    case ApplySettings(docker, management) =>
      SettingsKeeps(w.Live(), docker, management);
      ReplaceKeeps(w, last, SettingsState(w.Live(), docker, management));
    case Destroy => DestroyKeeps(w);
    case MoveTask(k, m) =>
      MoveKeeps(w.services[k], m);
      ReplaceKeeps(w, k, Moved(w.services[k], m));
    case _ =>
  }

  lemma {:induction false} InvFrom(o: World, steps: seq<Step>)
    requires Inv(o) && LegalFrom(o, steps)
    ensures Inv(AfterFrom(o, steps))
    decreases |steps|
  {
    if steps != [] {
      InvFrom(o, steps[..|steps| - 1]);
      StepKeeps(AfterFrom(o, steps[..|steps| - 1]), steps[|steps| - 1]);
    }
  }

  lemma ReachableInv(enabled: bool, steps: seq<Step>)
    requires LegalFrom(Initial(enabled), steps)
    ensures Inv(AfterFrom(Initial(enabled), steps))
  {
    InvFrom(Initial(enabled), steps);
  }

  // -------------------------------------------------------------- main results

  /** What holds of one service instance at any time. */
  ghost predicate Orderly(s: Service)
  {
    // an accepted stop is cancelled, dropped or interrupted before the end of its body
    // exactly when its instance was destroyed before that end
    && (forall i :: 0 <= i < |s.tasks| && IsStop(s.tasks[i].kind) ==>
          (Disturbed(s, i) <==> s.cut.Some? && i in s.cut.value))
    // at most three tasks are unfinished
    && ThreeAtMost(s.tasks)
    // the flag and the active operation describe exactly the newest task
    && (s.started <==> s.tasks != [] && Unfinished(s.Newest()))
    && s.active == (if s.started && s.Newest().kind.Lifecycle? then Some(s.Newest().kind.operation) else None)
    // at most one task runs
    && (forall i, j :: 0 <= i < j < |s.tasks| && InBody(s.tasks[j]) ==> s.tasks[i].phase == Done)
  }

  ghost predicate ThreeAtMost(tasks: seq<Task>)
  {
    forall a, b, c, d :: 0 <= a < b < c < d < |tasks| ==>
      !(Unfinished(tasks[a]) && Unfinished(tasks[b]) && Unfinished(tasks[c]) && Unfinished(tasks[d]))
  }

  /** Ranks rise strictly along the unfinished tasks and there are three of them. */
  lemma RanksBound(tasks: seq<Task>)
    requires PreemptionInv(tasks)
    ensures ThreeAtMost(tasks)
  {
    forall a, b, c, d | 0 <= a < b < c < d < |tasks|
      ensures !(Unfinished(tasks[a]) && Unfinished(tasks[b]) && Unfinished(tasks[c]) && Unfinished(tasks[d]))
    {
      FourRanks(tasks, a, b, c, d);
    }
  }

  lemma FourRanks(tasks: seq<Task>, a: nat, b: nat, c: nat, d: nat)
    requires PreemptionInv(tasks) && a < b < c < d < |tasks|
    ensures !(Unfinished(tasks[a]) && Unfinished(tasks[b]) && Unfinished(tasks[c]) && Unfinished(tasks[d]))
  {
  }

  lemma InvIsOrderly(s: Service)
    requires ServiceInv(s)
    ensures Orderly(s)
  {
    RanksBound(s.tasks);
    assert forall j :: 0 <= j < |s.tasks| && InBody(s.tasks[j]) ==> s.tasks[j].phase != Queued;
  }

  /** Main result over every sequence of requests, mode changes, destructions and every
      executor schedule: every instance, dead or alive, is orderly, and the living one is
      the last, so that no accepted stop of it has been disturbed. */
  lemma SchedulerIsSafe(enabled: bool, steps: seq<Step>, k: nat)
    requires LegalFrom(Initial(enabled), steps) && k < |AfterFrom(Initial(enabled), steps).services|
    ensures Orderly(AfterFrom(Initial(enabled), steps).services[k])
    ensures AfterFrom(Initial(enabled), steps).services[k].cut.None? <==>
            k == |AfterFrom(Initial(enabled), steps).services| - 1
  {
    ReachableInv(enabled, steps);
    var w := AfterFrom(Initial(enabled), steps);
    assert ServiceInv(w.services[k]);
    InvIsOrderly(w.services[k]);
  }

  ghost predicate NoModeChange(steps: seq<Step>)
  {
    forall k :: 0 <= k < |steps| ==> !steps[k].SetMode?
  }

  /** While the mode is on and nobody has asked to stop the service, no step but a mode
      change can get it destroyed. */
  lemma {:induction false} ModeOnKeepsInstance(o: World, steps: seq<Step>)
    requires o.enabled && !o.stopping && LegalFrom(o, steps) && NoModeChange(steps)
    ensures var w := AfterFrom(o, steps);
            w.enabled && !w.stopping && |w.services| == |o.services|
    decreases |steps|
  {
    if steps != [] {
      ModeOnKeepsInstance(o, steps[..|steps| - 1]);
      assert !steps[|steps| - 1].SetMode?;
    }
  }

  /** Task i of instance k is a stop that will not run its body to the end undisturbed. */
  predicate LostStop(w: World, k: nat, i: nat)
  {
    k < |w.services| && i < |w.services[k].tasks| && IsStop(w.services[k].tasks[i].kind) && Disturbed(w.services[k], i)
  }

  ghost predicate CanBeLost(w: World, i: nat)
    requires w.services != []
  {
    exists steps :: LegalFrom(w, steps) && NoModeChange(steps) && LostStop(AfterFrom(w, steps), |w.services| - 1, i)
  }

  lemma Then(o: World, steps: seq<Step>, step: Step) returns (more: seq<Step>)
    requires LegalFrom(o, steps) && Enabled(AfterFrom(o, steps), step)
    ensures LegalFrom(o, more) && AfterFrom(o, more) == Apply(AfterFrom(o, steps), step) && more == steps + [step]
  {
    more := steps + [step];
    assert more[..|more| - 1] == steps;
  }

  /** Exactly when an accepted, unfinished stop of the living instance can still be lost
      without anyone touching the mode: the mode is off, or it was off when somebody
      asked to stop the service. */
  lemma StopCanBeLostIff(w: World, i: nat)
    requires Inv(w) && i < |w.Live().tasks|
    requires IsStop(w.Live().tasks[i].kind) && Unfinished(w.Live().tasks[i])
    ensures CanBeLost(w, i) <==> !w.enabled || w.stopping
  {
    if !w.enabled || w.stopping {
      DestroyLoses(w, i);
    } else {
      forall steps | LegalFrom(w, steps) && NoModeChange(steps)
        ensures !LostStop(AfterFrom(w, steps), |w.services| - 1, i)
      {
        ModeOnKeepsStop(w, steps, i);
      }
    }
  }

  lemma DestroyLoses(w: World, i: nat)
    requires w.services != [] && i < |w.Live().tasks| && (!w.enabled || w.stopping)
    requires IsStop(w.Live().tasks[i].kind) && Unfinished(w.Live().tasks[i])
    ensures CanBeLost(w, i)
  {
    var steps: seq<Step> := [];
    assert AfterFrom(w, steps) == w;
    if !w.stopping { steps := Then(w, steps, OtherStopSelf); }
    steps := Then(w, steps, Destroy);
    assert LostStop(AfterFrom(w, steps), |w.services| - 1, i);
  }

  lemma ModeOnKeepsStop(w: World, steps: seq<Step>, i: nat)
    requires Inv(w) && w.enabled && !w.stopping && LegalFrom(w, steps) && NoModeChange(steps)
    ensures !LostStop(AfterFrom(w, steps), |w.services| - 1, i)
  {
    ModeOnKeepsInstance(w, steps);
    InvFrom(w, steps);
    var t := AfterFrom(w, steps);
    assert ServiceInv(t.services[|t.services| - 1]);
  }

  /** A run of requests, task moves and destructions only leads from one to the other. */
  ghost predicate Leads(o: World, w: World)
  {
    exists steps :: LegalFrom(o, steps) && NoModeChange(steps) && OtherStopSelf !in steps && AfterFrom(o, steps) == w
  }

  lemma Take(o: World, w: World, step: Step)
    requires Leads(o, w) && Enabled(w, step) && !step.SetMode? && step != OtherStopSelf
    ensures Leads(o, Apply(w, step))
  {
    var steps :| LegalFrom(o, steps) && NoModeChange(steps) && OtherStopSelf !in steps && AfterFrom(o, steps) == w;
    var more := Then(o, steps, step);
    assert NoModeChange(more);
  }

  lemma Stay(o: World)
    ensures Leads(o, o)
  {
    assert LegalFrom(o, []) && AfterFrom(o, []) == o;
  }

  /** A world with one instance, for the runs below. */
  function Solo(s: Service, enabled: bool, stopping: bool): World
  {
    World([s], enabled, stopping)
  }

  lemma SoloRequest(o: World, s: Service, enabled: bool, op: Operation)
    requires Leads(o, Solo(s, enabled, false))
    ensures Leads(o, Solo(RequestState(s, op, false), enabled, false))
  {
    Take(o, Solo(s, enabled, false), Request(op, false));
    assert [s][0 := RequestState(s, op, false)] == [RequestState(s, op, false)];
  }

  lemma SoloMove(o: World, s: Service, enabled: bool, m: Move)
    requires Leads(o, Solo(s, enabled, false)) && CanMove(s, m)
    ensures Leads(o, Solo(Moved(s, m), enabled, m.Leave? && !enabled))
  {
    Take(o, Solo(s, enabled, false), MoveTask(0, m));
    assert [s][0 := Moved(s, m)] == [Moved(s, m)];
  }

  /** The two-task queues the runs below go through. */
  function Pair(first: Task, second: Task, active: Option<Operation>, docker: bool): Service
  {
    Service([first, second], active, active.Some?, docker, None)
  }

  lemma PairFirst(first: Task, second: Task, active: Option<Operation>, docker: bool, m: Move)
    requires m.index == 0 && CanMove(Pair(first, second, active, docker), m) && !m.CloseDocker?
    ensures Moved(Pair(first, second, active, docker), m) ==
            Pair(first.(phase := NextPhase(m), skipped := first.skipped || m.Skip?), second, active, docker)
  {
    var s := Pair(first, second, active, docker);
    var t := first.(phase := NextPhase(m), skipped := first.skipped || m.Skip?);
    assert s.tasks[0 := t] == [t, second];
  }

  lemma PairSecond(first: Task, second: Task, active: Option<Operation>, docker: bool, m: Move)
    requires m.index == 1 && CanMove(Pair(first, second, active, docker), m) && !m.CloseDocker? && !m.Skip?
    ensures Moved(Pair(first, second, active, docker), m) ==
            Pair(first, second.(phase := NextPhase(m)), if m.EndBody? then None else active, docker)
  {
    var s := Pair(first, second, active, docker);
    var t := second.(phase := NextPhase(m));
    assert s.tasks[1 := t] == [first, t];
  }

  /** A stop that preempts the only task. */
  lemma StopPreempts(first: Task, active: Option<Operation>, docker: bool)
    requires !FutureDone(first) && active != Some(Stop) && active != Some(ForceStop)
    ensures RequestState(Service([first], active, true, docker, None), Stop, false) ==
            Pair(Cancelled(first), Task(Lifecycle(Stop), Queued, false, false, false), Some(Stop), docker)
  {
    var stop := Task(Lifecycle(Stop), Queued, false, false, false);
    assert [first][0 := Cancelled(first)] + [stop] == [Cancelled(first), stop];
  }

  /** It happens with nothing but allowed requests: the mode is off, a stop preempts a
      running status request, whose end stops the service before the stop has begun. */
  lemma StatusCanLoseAStop() returns (w: World)
    ensures Leads(Initial(false), w)
    ensures LostStop(w, 0, 1) && w.services[0].tasks[1].phase == Queued && |w.services| == 2
  {
    var o := Initial(false);
    var status := Task(Lifecycle(Status), Queued, false, false, false);
    var running := status.(phase := Running);
    Stay(o);
    SoloRequest(o, FRESH, false, Status);
    assert [] + [status] == [status];
    SoloMove(o, Service([status], Some(Status), true, false, None), false, Begin(0));
    assert [status][0 := running] == [running];
    SoloRequest(o, Service([running], Some(Status), true, false, None), false, Stop);
    StopPreempts(running, Some(Status), false);
    w := StatusEnds(o, Cancelled(running), Task(Lifecycle(Stop), Queued, false, false, false));
  }

  lemma StatusEnds(o: World, status: Task, stop: Task) returns (w: World)
    requires Leads(o, Solo(Pair(status, stop, Some(Stop), false), false, false))
    requires status.phase == Running && status.kind.Lifecycle? && stop.phase == Queued && IsStop(stop.kind)
    ensures Leads(o, w)
    ensures LostStop(w, 0, 1) && w.services[0].tasks[1].phase == Queued && |w.services| == 2
  {
    PairFirst(status, stop, Some(Stop), false, EndBody(0));
    SoloMove(o, Pair(status, stop, Some(Stop), false), false, EndBody(0));
    var s := status.(phase := Finished);
    PairFirst(s, stop, Some(Stop), false, Leave(0));
    SoloMove(o, Pair(s, stop, Some(Stop), false), false, Leave(0));
    var last := Solo(Pair(s.(phase := Returned), stop, Some(Stop), false), false, true);
    Take(o, last, Destroy);
    w := Apply(last, Destroy);
  }

  /** A task that was preempted leaves the newer request's state alone when it ends; all
      it can do is ask for the service to be stopped, if the mode is off. */
  lemma PreemptedTaskClearsNothing(w: World, i: nat)
    requires Inv(w) && i < |w.Live().tasks| - 1
    ensures CanMove(w.Live(), EndBody(i)) ==>
              var t := Moved(w.Live(), EndBody(i));
              t.started == w.Live().started == true && t.active == w.Live().active && t.Newest() == w.Live().Newest()
    ensures Enabled(w, MoveTask(|w.services| - 1, Leave(i))) ==>
              var t := Apply(w, MoveTask(|w.services| - 1, Leave(i)));
              t.stopping == (w.stopping || !w.enabled) && t.Live().started == w.Live().started
              && t.Live().active == w.Live().active && t.Live().Newest() == w.Live().Newest()
  {
    var s := w.Live();
    assert ServiceInv(w.services[|w.services| - 1]);
    if CanMove(s, EndBody(i)) {
      assert s.tasks[i].phase != Done && s.tasks[|s.tasks| - 1].phase == Queued;
    }
  }

  // ------------------------------------------------- the docker flag can stick

  /** Exactly when the docker flag of an instance is set: a docker task has not got past
      the clearing, or one was cancelled before it started and so never cleared it. */
  lemma DockerFlagMeaning(enabled: bool, steps: seq<Step>, k: nat)
    requires LegalFrom(Initial(enabled), steps) && k < |AfterFrom(Initial(enabled), steps).services|
    ensures DockerInv(AfterFrom(Initial(enabled), steps).services[k])
  {
    ReachableInv(enabled, steps);
    assert ServiceInv(AfterFrom(Initial(enabled), steps).services[k]);
  }

  ghost predicate Dropped(s: Service)
  {
    exists i :: 0 <= i < |s.tasks| && s.tasks[i].kind == Settings(true) && s.tasks[i].skipped
  }

  lemma DroppedHolds(s: Service)
    requires DockerInv(s) && Dropped(s)
    ensures s.dockerStarted
  {
    var i :| 0 <= i < |s.tasks| && s.tasks[i].kind == Settings(true) && s.tasks[i].skipped;
    assert HoldsDocker(s.tasks[i]);
  }

  /** Tasks keep their kind, and a skipped one stays skipped. */
  predicate Extends(before: seq<Task>, after: seq<Task>)
  {
    |before| <= |after| &&
    forall i :: 0 <= i < |before| ==> after[i].kind == before[i].kind && (before[i].skipped ==> after[i].skipped)
  }

  lemma DroppedStays(s: Service, t: Service)
    requires Dropped(s) && Extends(s.tasks, t.tasks)
    ensures Dropped(t)
  {
    var i :| 0 <= i < |s.tasks| && s.tasks[i].kind == Settings(true) && s.tasks[i].skipped;
    assert t.tasks[i].kind == Settings(true) && t.tasks[i].skipped;
  }

  lemma LiveExtends(w: World, step: Step)
    requires Enabled(w, step) && step != Destroy
    ensures Apply(w, step).services != [] && Extends(w.Live().tasks, Apply(w, step).Live().tasks)
  {
  }

  lemma DroppedLives(w: World, step: Step)
    requires Inv(w) && Enabled(w, step) && Dropped(w.Live()) && step != Destroy
    ensures Apply(w, step).services != []
    ensures Dropped(Apply(w, step).Live()) && Apply(w, step).Live().dockerStarted
  {
    StepKeeps(w, step);
    LiveExtends(w, step);
    var t := Apply(w, step);
    DroppedStays(w.Live(), t.Live());
    assert ServiceInv(t.services[|t.services| - 1]);
    DroppedHolds(t.Live());
  }

  lemma DroppedRefuses(w: World)
    requires Inv(w) && Dropped(w.Live())
    ensures w.Live().dockerStarted
    ensures forall docker :: SettingsState(w.Live(), docker, true) == w.Live()
    ensures RequestState(w.Live(), Restart, true) == w.Live()
  {
    assert ServiceInv(w.services[|w.services| - 1]);
    DroppedHolds(w.Live());
  }

  /** Once a docker task was dropped, the flag stays set, and settings and restart
      requests are refused, for as long as the instance lives; a new one starts clean. */
  lemma DroppedDockerTaskSticks(w: World, step: Step)
    requires Inv(w) && Enabled(w, step) && Dropped(w.Live())
    ensures Apply(w, step).services != []
    ensures if step == Destroy then Apply(w, step).Live() == FRESH
            else Dropped(Apply(w, step).Live()) && Apply(w, step).Live().dockerStarted
    ensures step.ApplySettings? || step == Request(Restart, w.Live().dockerStarted) ==> Apply(w, step).Live() == w.Live()
  {
    DroppedRefuses(w);
    if step != Destroy { DroppedLives(w, step); }
  }

  /** It does happen: a stop requested before the executor picks the docker task up
      leaves an idle service with the flag set; with the mode on it stays so. */
  lemma StopCanStrandTheDockerFlag() returns (w: World)
    ensures Leads(Initial(true), w) && w.enabled && !w.stopping && w.services != []
    ensures w.Live().dockerStarted && Dropped(w.Live())
    ensures forall i :: 0 <= i < |w.Live().tasks| ==> w.Live().tasks[i].phase == Done
  {
    var stop := Task(Lifecycle(Stop), Queued, false, false, false);
    var dropped := Task(Settings(true), Done, true, true, false);
    DropDocker(dropped, stop);
    StopEnds(Initial(true), dropped, stop);
    w := Solo(Pair(dropped, stop.(phase := Done), None, true), true, false);
    assert w.Live().tasks[0] == dropped;
  }

  lemma DropDocker(dropped: Task, stop: Task)
    requires stop == Task(Lifecycle(Stop), Queued, false, false, false)
    requires dropped == Task(Settings(true), Done, true, true, false)
    ensures Leads(Initial(true), Solo(Pair(dropped, stop, Some(Stop), true), true, false))
  {
    var o := Initial(true);
    var docker := Task(Settings(true), Queued, false, false, false);
    Stay(o);
    Take(o, o, ApplySettings(true, false));
    var s := Service([docker], None, true, true, None);
    assert [] + [docker] == [docker] && [FRESH][0 := s] == [s];
    SoloRequest(o, s, true, Stop);
    StopPreempts(docker, None, true);
    PairFirst(Cancelled(docker), stop, Some(Stop), true, Skip(0));
    SoloMove(o, Pair(Cancelled(docker), stop, Some(Stop), true), true, Skip(0));
  }

  lemma StopEnds(o: World, dropped: Task, stop: Task)
    requires Leads(o, Solo(Pair(dropped, stop, Some(Stop), true), true, false))
    requires stop.kind.Lifecycle? && stop.phase == Queued && !stop.cancelled && dropped.phase == Done
    ensures Leads(o, Solo(Pair(dropped, stop.(phase := Done), None, true), true, false))
  {
    PairSecond(dropped, stop, Some(Stop), true, Begin(1));
    SoloMove(o, Pair(dropped, stop, Some(Stop), true), true, Begin(1));
    PairSecond(dropped, stop.(phase := Running), Some(Stop), true, EndBody(1));
    SoloMove(o, Pair(dropped, stop.(phase := Running), Some(Stop), true), true, EndBody(1));
    PairSecond(dropped, stop.(phase := Finished), None, true, Leave(1));
    SoloMove(o, Pair(dropped, stop.(phase := Finished), None, true), true, Leave(1));
    PairSecond(dropped, stop.(phase := Returned), None, true, Complete(1));
    SoloMove(o, Pair(dropped, stop.(phase := Returned), None, true), true, Complete(1));
  }

  // ---------------------------------------------------------- the service object

  /** One service instance as an object. */
  class LifecycleService {
    var tasks: seq<Task>
    var active: Option<Operation>
    var started: bool
    var dockerStarted: bool
    var cut: Option<set<nat>>

    function View(): Service
      reads this
    {
      Service(tasks, active, started, dockerStarted, cut)
    }

    ghost predicate Valid()
      reads this
    {
      ServiceInv(View())
    }

    constructor ()
      ensures Valid() && View() == FRESH
    {
      tasks, active, started, dockerStarted, cut := [], None, false, false, None;
    }

    /** `requestLifecycleOperation`: an accepted request becomes the newest task and the
        active operation; a refused one changes nothing; no unfinished stop is touched. */
    method RequestLifecycle(op: Operation, management: bool) returns (accepted: bool)
      requires Valid() && cut.None?
      modifies this
      ensures Valid() && View() == RequestState(old(View()), op, management)
      ensures RequestPromise(old(View()), View(), op, management, accepted)
    {
      ghost var before := View();
      accepted := TryRequest(op, management);
      RequestKeeps(before, op, management);
      RequestMeans(before, op, management);
    }

    method TryRequest(op: Operation, management: bool) returns (accepted: bool)
      modifies this
      ensures View() == RequestState(old(View()), op, management)
      ensures accepted == Accepts(old(View()), op, management)
    {
      var urgent := op == Stop || op == ForceStop || op == Restart;
      if op == Restart && management { return false; }
      if tasks != [] && !FutureDone(tasks[|tasks| - 1]) {
        if !urgent { return false; }
        if active.Some? && (active.value == op || active.value == Stop || active.value == ForceStop) { return false; }
        tasks := tasks[|tasks| - 1 := Cancelled(tasks[|tasks| - 1])];
      }
      started := true;
      active := Some(op);
      tasks := tasks + [Task(Lifecycle(op), Queued, false, false, false)];
      return true;
    }

    /** `requestRuntimeSettingsApplication`: accepted only when every task is done. */
    method RequestSettings(applyUsb: bool, applyDocker: bool, applyCgroup: bool, management: bool) returns (accepted: bool)
      requires Valid() && cut.None? && (dockerStarted ==> management)
      modifies this
      ensures Valid()
      ensures View() == if applyUsb || applyDocker || applyCgroup
                        then SettingsState(old(View()), applyDocker, management) else old(View())
      ensures !accepted ==> View() == old(View())
      ensures accepted <==> (applyUsb || applyDocker || applyCgroup) && !management
                            && forall i :: 0 <= i < |old(tasks)| ==> !Pending(old(tasks)[i])
      ensures accepted ==> forall i :: 0 <= i < |old(tasks)| ==> old(tasks)[i].phase == Done
      ensures accepted ==> started && active.None? && (dockerStarted <==> applyDocker)
                           && tasks == old(tasks) + [Task(Settings(applyDocker), Queued, false, false, false)]
    {
      SettingsKeeps(View(), applyDocker, management);
      accepted := false;
      if !applyUsb && !applyDocker && !applyCgroup { return; }
      if management || (tasks != [] && !FutureDone(tasks[|tasks| - 1])) { return; }
      started := true;
      if applyDocker { dockerStarted := true; }
      active := None;
      tasks := tasks + [Task(Settings(applyDocker), Queued, false, false, false)];
      accepted := true;
    }

    /** A settings task on its way out clears the docker flag it set. */
    method ClearDocker(i: nat)
      requires Valid() && CanMove(View(), CloseDocker(i))
      modifies this
      ensures Valid() && View() == Moved(old(View()), CloseDocker(i))
      ensures tasks[i].kind.docker ==> !dockerStarted
    {
      MoveKeeps(View(), CloseDocker(i));
      if tasks[i].kind.docker { dockerStarted := false; }
      tasks := tasks[i := tasks[i].(phase := Closing)];
    }

    /** The final critical section: only the newest task clears the flags. */
    method FinishTask(i: nat)
      requires Valid() && CanMove(View(), EndBody(i))
      modifies this
      ensures Valid() && View() == Moved(old(View()), EndBody(i))
      ensures i == |tasks| - 1 ==> !started && active.None?
      ensures i < |tasks| - 1 ==> started == old(started) == true && active == old(active)
    {
      MoveKeeps(View(), EndBody(i));
      MoveIsNext(View(), EndBody(i));
      if i == |tasks| - 1 {
        started := false;
        active := None;
      }
      tasks := tasks[i := tasks[i].(phase := Finished)];
    }

    /** `onDestroy`: from now on exactly the unfinished stops are lost. */
    method Destroyed()
      requires Valid() && cut.None?
      modifies this
      ensures Valid() && View() == ShutDown(old(View()))
      ensures forall i: nat :: i < |tasks| && IsStop(tasks[i].kind) ==>
                (Disturbed(View(), i) <==> Unfinished(old(tasks)[i]))
    {
      ghost var before := View();
      InterruptAll();
      ShutDownKeeps(before);
    }

    method InterruptAll()
      modifies this
      ensures View() == ShutDown(old(View()))
    {
      var was := tasks;
      var k := 0;
      while k < |was|
        invariant 0 <= k <= |was| == |tasks|
        invariant forall i :: 0 <= i < k ==> tasks[i] == was[i].(interrupted := was[i].interrupted || InBody(was[i]))
        invariant forall i :: k <= i < |was| ==> tasks[i] == was[i]
        invariant active == old(active) && started == old(started) && dockerStarted == old(dockerStarted)
      {
        if InBody(was[k]) { tasks := tasks[k := was[k].(interrupted := true)]; }
        k := k + 1;
      }
      cut := Some(set i: nat | i < |was| && Unfinished(was[i]));
      assert tasks == ShutDown(old(View())).tasks;
    }
  }

  /** Unfinished stops are left exactly as they were. */
  ghost predicate StopsKept(before: seq<Task>, after: seq<Task>)
  {
    |before| <= |after| &&
    forall i :: 0 <= i < |before| && IsStop(before[i].kind) && Unfinished(before[i]) ==> after[i] == before[i]
  }

  /** Its future is neither done nor cancelled. */
  predicate Pending(t: Task)
  {
    t.phase != Done && !t.cancelled
  }

  /** Who gets in: a restart not during management work; anybody when nothing is pending;
      otherwise a stop, force-stop or restart, unless the pending task is an unfinished
      stop or force-stop or the same operation. */
  ghost predicate Admitted(tasks: seq<Task>, op: Operation, management: bool)
  {
    && !(op == Restart && management)
    && ((op == Start || op == Status) ==> forall i :: 0 <= i < |tasks| ==> !Pending(tasks[i]))
    && (forall i :: 0 <= i < |tasks| && Pending(tasks[i]) && Unfinished(tasks[i]) ==>
          tasks[i].kind != Lifecycle(Stop) && tasks[i].kind != Lifecycle(ForceStop) && tasks[i].kind != Lifecycle(op))
  }

  /** Exactly the pending task is cancelled, and interrupted if its body runs. */
  ghost predicate Preempts(before: seq<Task>, after: seq<Task>)
  {
    |before| <= |after| && forall i :: 0 <= i < |before| ==>
      after[i] == if Pending(before[i])
                  then before[i].(cancelled := true,
                                  interrupted := before[i].interrupted || before[i].phase == Running || before[i].phase == Closing)
                  else before[i]
  }

  /** A request is accepted exactly when it is admitted; a refused one changes nothing; an
      accepted one preempts what is pending and is the newest task and the active
      operation; unfinished stops are left alone. */
  ghost predicate RequestPromise(s: Service, t: Service, op: Operation, management: bool, accepted: bool)
  {
    && (accepted <==> Admitted(s.tasks, op, management))
    && StopsKept(s.tasks, t.tasks)
    && (!accepted ==> t == s)
    && (accepted ==> t.started && t.active == Some(op) && |t.tasks| == |s.tasks| + 1 && Preempts(s.tasks, t.tasks)
                     && t.Newest() == Task(Lifecycle(op), Queued, false, false, false)
                     && t.dockerStarted == s.dockerStarted)
  }

  lemma RequestMeans(s: Service, op: Operation, management: bool)
    requires FlagInv(s) && QueueInv(s.tasks)
    ensures RequestPromise(s, RequestState(s, op, management), op, management, Accepts(s, op, management))
  {
    AcceptsMeans(s, op, management);
  }

  lemma AcceptsMeans(s: Service, op: Operation, management: bool)
    requires FlagInv(s) && QueueInv(s.tasks)
    ensures Accepts(s, op, management) <==> Admitted(s.tasks, op, management)
  {
    if s.tasks != [] {
      var n := |s.tasks| - 1;
      assert Occupied(s) <==> Pending(s.tasks[n]);
      assert forall i :: 0 <= i < n ==> !Pending(s.tasks[i]);
    }
  }

  /** Over every run, what a request to the living instance does. */
  lemma RequestsAreAdmitted(enabled: bool, steps: seq<Step>, op: Operation, management: bool)
    requires LegalFrom(Initial(enabled), steps) && AfterFrom(Initial(enabled), steps).services != []
    ensures var s := AfterFrom(Initial(enabled), steps).Live();
            RequestPromise(s, RequestState(s, op, management), op, management, Admitted(s.tasks, op, management))
  {
    ReachableInv(enabled, steps);
    var w := AfterFrom(Initial(enabled), steps);
    assert ServiceInv(w.services[|w.services| - 1]);
    RequestMeans(w.Live(), op, management);
  }

  // ------------------------------------------------------------ the executor moves on

  function Weight(p: Phase): nat
  {
    match p
    case Queued => 5
    case Running => 4
    case Closing => 3
    case Finished => 2
    case Returned => 1
    case Done => 0
  }

  /** The steps the executor still has to take. */
  function Work(tasks: seq<Task>): nat
  {
    if tasks == [] then 0 else Weight(tasks[0].phase) + Work(tasks[1..])
  }

  lemma {:induction false} LessWork(tasks: seq<Task>, i: nat, t: Task)
    requires i < |tasks| && Weight(t.phase) < Weight(tasks[i].phase)
    ensures Work(tasks[i := t]) < Work(tasks)
  {
    if i > 0 {
      LessWork(tasks[1..], i - 1, t);
      assert tasks[i := t][1..] == tasks[1..][i - 1 := t];
    } else {
      assert tasks[0 := t][1..] == tasks[1..];
    }
  }

  lemma {:induction false} FirstNotDone(tasks: seq<Task>, n: nat) returns (i: nat)
    requires n <= |tasks| && exists j :: 0 <= j < n && tasks[j].phase != Done
    ensures i < n && tasks[i].phase != Done && EarlierDone(tasks, i)
  {
    if forall j :: 0 <= j < n - 1 ==> tasks[j].phase == Done {
      i := n - 1;
    } else {
      i := FirstNotDone(tasks, n - 1);
    }
  }

  /** Only settings tasks have a docker flag to clear on their way out. */
  ghost predicate ClosingInv(tasks: seq<Task>)
  {
    forall i :: 0 <= i < |tasks| && tasks[i].phase == Closing ==> tasks[i].kind.Settings?
  }

  lemma MoveKeepsClosing(s: Service, m: Move)
    requires ClosingInv(s.tasks) && CanMove(s, m)
    ensures ClosingInv(Moved(s, m).tasks)
  {
  }

  lemma SubmissionKeepsClosing(s: Service, op: Operation, docker: bool, management: bool)
    requires ClosingInv(s.tasks)
    ensures ClosingInv(RequestState(s, op, management).tasks) && ClosingInv(SettingsState(s, docker, management).tasks)
    ensures ClosingInv(ShutDown(s).tasks)
  {
  }

  lemma {:induction false} ClosingFrom(o: World, steps: seq<Step>)
    requires (forall k :: 0 <= k < |o.services| ==> ClosingInv(o.services[k].tasks)) && LegalFrom(o, steps)
    ensures forall k :: 0 <= k < |AfterFrom(o, steps).services| ==> ClosingInv(AfterFrom(o, steps).services[k].tasks)
    decreases |steps|
  {
    if steps != [] {
      ClosingFrom(o, steps[..|steps| - 1]);
      var w, step := AfterFrom(o, steps[..|steps| - 1]), steps[|steps| - 1];
      match step
      case MoveTask(k, m) => MoveKeepsClosing(w.services[k], m);
      case Request(op, management) => SubmissionKeepsClosing(w.services[|w.services| - 1], op, false, management);
      case ApplySettings(docker, management) => SubmissionKeepsClosing(w.services[|w.services| - 1], Start, docker, management);
      case Destroy => SubmissionKeepsClosing(w.services[|w.services| - 1], Start, false, false);
      case _ =>
    }
  }

  /** Over every run the executor of the living instance never gets stuck: while a task is
      not done, the first such one can move, and every move leaves less to do. */
  lemma ExecutorMovesOn(enabled: bool, steps: seq<Step>) returns (m: Move)
    requires LegalFrom(Initial(enabled), steps)
    requires var w := AfterFrom(Initial(enabled), steps);
             w.services != [] && exists i :: 0 <= i < |w.Live().tasks| && w.Live().tasks[i].phase != Done
    ensures var s := AfterFrom(Initial(enabled), steps).Live();
            CanMove(s, m) && Work(Moved(s, m).tasks) < Work(s.tasks)
  {
    ReachableInv(enabled, steps);
    ClosingFrom(Initial(enabled), steps);
    var w := AfterFrom(Initial(enabled), steps);
    var last := |w.services| - 1;
    assert ClosingInv(w.services[last].tasks) && w.services[last].cut.None?;
    m := FirstMoves(w.Live());
  }

  lemma FirstMoves(s: Service) returns (m: Move)
    requires ClosingInv(s.tasks) && s.cut.None? && exists i :: 0 <= i < |s.tasks| && s.tasks[i].phase != Done
    ensures CanMove(s, m) && Work(Moved(s, m).tasks) < Work(s.tasks)
  {
    var i := FirstNotDone(s.tasks, |s.tasks|);
    var t := s.tasks[i];
    m := match t.phase
      case Queued => if t.cancelled then Skip(i) else Begin(i)
      case Running => if t.kind.Settings? then CloseDocker(i) else EndBody(i)
      case Closing => EndBody(i)
      case Finished => Leave(i)
      case _ => Complete(i);
    LessWork(s.tasks, i, Moved(s, m).tasks[i]);
  }
}
