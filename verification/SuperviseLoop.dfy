/** The supervisor's wait loop in both launch modes: periodic USB scans, one
    graceful stop, one forced kill after the grace period, and the closing steps
    once the service has been reaped. */
module SuperviseLoop {

  const SCAN_INTERVAL_MS: int := 2000
  const SYSTEMD_GRACE_MS: int := 20000
  const COMPAT_GRACE_MS: int := 10000
  const INT64_MAX: int := 0x7FFF_FFFF_FFFF_FFFF

  /** `waitpid`: nothing yet, the wait status, or an error other than EINTR. */
  datatype Wait = StillRunning | Reaped(status: int) | WaitFailed

  /** What one turn of the loop observes: the wait result, the stop flag at its two
      reads, and the clock at each of its reads. */
  datatype Turn = Turn(wait: Wait, stopBeforeScan: bool, stop: bool,
                       scanClock: int, rescanClock: int, graceClock: int, killClock: int)

  datatype Event =
    | StopSeen
    | Scan(at: int, until: int)  // the clock before and after it
    | Graceful(at: int)      // the clock just after the request
    | WroteStopping
    | Kill(at: int)
    | ServiceGone
    | Restored
    | WroteStopped(status: int)

  /** The clock never goes back, and a deadline computed from it neither overflows
      nor reaches the sentinel. */
  ghost predicate Monotone(start: int, turns: seq<Turn>)
  {
    && 0 <= start
    && (forall i :: 0 <= i < |turns| ==>
          && start <= turns[i].scanClock <= turns[i].rescanClock <= turns[i].graceClock <= turns[i].killClock
          && turns[i].killClock + SYSTEMD_GRACE_MS < INT64_MAX)
    && (forall i, j :: 0 <= i < j < |turns| ==> turns[i].killClock <= turns[j].scanClock)
  }

  /** The stop flag is only ever set. */
  ghost predicate FlagMonotone(turns: seq<Turn>)
  {
    && (forall i :: 0 <= i < |turns| ==> turns[i].stopBeforeScan ==> turns[i].stop)
    && (forall i, j :: 0 <= i < j < |turns| && turns[i].stop ==> turns[j].stopBeforeScan)
  }

  /** The promise about everything the loop does while the service lives. */
  ghost predicate OrderlyStop(trace: seq<Event>, grace: int)
  {
    // at most one graceful stop and one kill
    && (forall i, j :: 0 <= i < j < |trace| ==> !(trace[i].Graceful? && trace[j].Graceful?))
    && (forall i, j :: 0 <= i < j < |trace| ==> !(trace[i].Kill? && trace[j].Kill?))
    // the kill comes at least the grace period after the graceful stop
    && (forall j :: 0 <= j < |trace| && trace[j].Kill? ==>
          exists i :: 0 <= i < j && trace[i].Graceful? && trace[i].at + grace <= trace[j].at)
    // stopping needs the flag; no scan once it was seen
    && (forall j :: 0 <= j < |trace| && trace[j].Graceful? ==> exists i :: 0 <= i < j && trace[i].StopSeen?)
    && (forall i, j :: 0 <= i < j < |trace| && trace[i].StopSeen? ==> !trace[j].Scan?)
    // scans keep their distance
    && (forall i, j :: 0 <= i < j < |trace| && trace[i].Scan? && trace[j].Scan? ==>
          trace[i].until + SCAN_INTERVAL_MS <= trace[j].at)
    && (forall i :: 0 <= i < |trace| ==> !trace[i].ServiceGone? && !trace[i].Restored? && !trace[i].WroteStopped?)
  }

  /** Appending one event keeps the promise when the event is in order. */
  lemma Append(trace: seq<Event>, grace: int, e: Event)
    requires OrderlyStop(trace, grace)
    requires !e.ServiceGone? && !e.Restored? && !e.WroteStopped?
    requires e.Graceful? ==> forall i :: 0 <= i < |trace| ==> !trace[i].Graceful?
    requires e.Graceful? ==> exists i :: 0 <= i < |trace| && trace[i].StopSeen?
    requires e.Kill? ==> forall i :: 0 <= i < |trace| ==> !trace[i].Kill?
    requires e.Kill? ==> exists i :: 0 <= i < |trace| && trace[i].Graceful? && trace[i].at + grace <= e.at
    requires e.Scan? ==> forall i :: 0 <= i < |trace| ==>
               !trace[i].StopSeen? && (trace[i].Scan? ==> trace[i].until + SCAN_INTERVAL_MS <= e.at)
    ensures OrderlyStop(trace + [e], grace)
  {
    var more := trace + [e];
    forall j | 0 <= j < |more| && more[j].Kill?
      ensures exists i :: 0 <= i < j && more[i].Graceful? && more[i].at + grace <= more[j].at
    {
      var i :| 0 <= i < j && i < |trace| && trace[i].Graceful? && trace[i].at + grace <= more[j].at;
      assert more[i] == trace[i];
    }
    forall j | 0 <= j < |more| && more[j].Graceful?
      ensures exists i :: 0 <= i < j && more[i].StopSeen?
    {
      var i :| 0 <= i < j && i < |trace| && trace[i].StopSeen?;
      assert more[i] == trace[i];
    }
  }

  /** What the loop variables say about the trace so far. */
  ghost predicate Tracks(trace: seq<Event>, grace: int, seen: bool, sent: bool, deadline: int, nextScan: int)
  {
    && OrderlyStop(trace, grace)
    && (seen <==> exists i :: 0 <= i < |trace| && trace[i].StopSeen?)
    && (sent <==> exists i :: 0 <= i < |trace| && trace[i].Graceful?)
    && (sent && deadline != INT64_MAX ==>
          && (forall i :: 0 <= i < |trace| ==> !trace[i].Kill?)
          && (forall i :: 0 <= i < |trace| && trace[i].Graceful? ==> trace[i].at + grace == deadline))
    && (sent && deadline == INT64_MAX ==> exists i :: 0 <= i < |trace| && trace[i].Kill?)
    && (!sent ==> forall i :: 0 <= i < |trace| ==> !trace[i].Kill?)
    && (forall i :: 0 <= i < |trace| && trace[i].Scan? ==> trace[i].until + SCAN_INTERVAL_MS <= nextScan)
    && (sent ==> seen)
  }

  lemma TrackSeen(trace: seq<Event>, grace: int, sent: bool, deadline: int, nextScan: int)
    requires Tracks(trace, grace, false, sent, deadline, nextScan)
    ensures Tracks(trace + [StopSeen], grace, true, sent, deadline, nextScan)
  {
    Append(trace, grace, StopSeen);
    assert (trace + [StopSeen])[|trace|] == StopSeen;
  }

  lemma TrackScan(trace: seq<Event>, grace: int, deadline: int, nextScan: int, at: int, again: int)
    requires Tracks(trace, grace, false, false, deadline, nextScan) && nextScan <= at <= again
    ensures Tracks(trace + [Scan(at, again)], grace, false, false, deadline, again + SCAN_INTERVAL_MS)
  {
    Append(trace, grace, Scan(at, again));
  }

  lemma TrackGraceful(trace: seq<Event>, grace: int, deadline: int, nextScan: int, at: int)
    requires Tracks(trace, grace, true, false, deadline, nextScan) && at + grace != INT64_MAX
    ensures Tracks(trace + [Graceful(at), WroteStopping], grace, true, true, at + grace, nextScan)
  {
    Append(trace, grace, Graceful(at));
    var one := trace + [Graceful(at)];
    Append(one, grace, WroteStopping);
    var two := trace + [Graceful(at), WroteStopping];
    assert one + [WroteStopping] == two;
    assert two[|trace|] == Graceful(at);
    var i :| 0 <= i < |trace| && trace[i].StopSeen?;
    assert two[i] == trace[i];
  }

  lemma TrackKill(trace: seq<Event>, grace: int, deadline: int, nextScan: int, at: int)
    requires Tracks(trace, grace, true, true, deadline, nextScan) && deadline != INT64_MAX && deadline <= at
    ensures Tracks(trace + [Kill(at)], grace, true, true, INT64_MAX, nextScan)
  {
    var i :| 0 <= i < |trace| && trace[i].Graceful?;
    assert trace[i].at + grace <= at;
    Append(trace, grace, Kill(at));
    var more := trace + [Kill(at)];
    assert more[i] == trace[i] && more[|trace|].Kill?;
    var k :| 0 <= k < |trace| && trace[k].StopSeen?;
    assert more[k] == trace[k];
  }

  /** The loop's variables. */
  datatype Loop = Loop(trace: seq<Event>, seen: bool, sent: bool, deadline: int, nextScan: int)

  ghost predicate Tracked(l: Loop, grace: int)
  {
    Tracks(l.trace, grace, l.seen, l.sent, l.deadline, l.nextScan)
  }

  ghost predicate NoScan(trace: seq<Event>)
  {
    forall i :: 0 <= i < |trace| ==> !trace[i].Scan?
  }

  /** "stopping" is written right after each graceful stop, and at no other time. */
  ghost predicate Announced(trace: seq<Event>)
  {
    && (forall i :: 0 <= i < |trace| && trace[i].Graceful? ==> i + 1 < |trace| && trace[i + 1] == WroteStopping)
    && (forall i :: 0 <= i < |trace| && trace[i] == WroteStopping ==> i > 0 && trace[i - 1].Graceful?)
  }

  /** Where the scan deadline comes from: the start or the end of a scan. */
  ghost predicate ScanDeadline(trace: seq<Event>, start: int, nextScan: int)
  {
    nextScan == start + 2000 || exists e :: e in trace && e.Scan? && nextScan == e.until + 2000
  }

  /** No scan that is due is left out: in each turn that does not see the stop flag, 2000 ms
      or more after the start and after the end of every earlier scan, there is one. */
  ghost predicate ScansWhenDue(trace: seq<Event>, start: int, turns: seq<Turn>, n: nat)
    requires n <= |turns|
  {
    forall i :: 0 <= i < n && !turns[i].stopBeforeScan && Due(trace, start, turns[i]) ==>
      Scan(turns[i].scanClock, turns[i].rescanClock) in trace
  }

  /** Every other scan up to this turn ended 2000 ms before it or earlier. */
  ghost predicate Due(trace: seq<Event>, start: int, turn: Turn)
  {
    start + 2000 <= turn.scanClock &&
    forall e :: e in trace && e.Scan? && e.at <= turn.scanClock && e != Scan(turn.scanClock, turn.rescanClock) ==>
      e.until + 2000 <= turn.scanClock
  }

  ghost predicate ScansBefore(trace: seq<Event>, clock: int)
  {
    forall e :: e in trace && e.Scan? ==> e.at <= clock
  }

  ghost predicate SameScans(trace: seq<Event>, more: seq<Event>)
  {
    forall e: Event :: e.Scan? ==> (e in trace <==> e in more)
  }

  lemma SameScansDue(trace: seq<Event>, more: seq<Event>, start: int, turns: seq<Turn>, n: nat)
    requires n <= |turns| && ScansWhenDue(trace, start, turns, n) && SameScans(trace, more)
    ensures ScansWhenDue(more, start, turns, n)
  {
    forall i | 0 <= i < n && !turns[i].stopBeforeScan && Due(more, start, turns[i])
      ensures Scan(turns[i].scanClock, turns[i].rescanClock) in more
    {
      assert Due(trace, start, turns[i]);
    }
  }

  /** A turn that scans exactly when its deadline has passed. */
  lemma TurnScansDue(trace: seq<Event>, more: seq<Event>, start: int, nextScan: int, turns: seq<Turn>, n: nat)
    requires n < |turns| && ScansWhenDue(trace, start, turns, n) && ScanDeadline(trace, start, nextScan)
    requires ScansBefore(trace, turns[n].scanClock)
    requires if !turns[n].stopBeforeScan && turns[n].scanClock >= nextScan
             then more == trace + [Scan(turns[n].scanClock, turns[n].rescanClock)] else SameScans(trace, more)
    ensures ScansWhenDue(more, start, turns, n + 1)
  {
    forall i | 0 <= i < n + 1 && !turns[i].stopBeforeScan && Due(more, start, turns[i])
      ensures Scan(turns[i].scanClock, turns[i].rescanClock) in more
    {
      assert Due(trace, start, turns[i]);
    }
  }

  method ScanPart(exclusive: bool, grace: int, turn: Turn, l: Loop) returns (r: Loop)
    requires Tracked(l, grace) && (l.seen ==> turn.stopBeforeScan) && turn.scanClock <= turn.rescanClock
    ensures Tracked(r, grace) && r.sent == l.sent && r.deadline == l.deadline
    ensures r.seen ==> l.seen || turn.stopBeforeScan
    ensures !exclusive ==> r == l
    // a scan happens exactly when one is due and the flag was not seen
    ensures if exclusive && !turn.stopBeforeScan && turn.scanClock >= l.nextScan
            then r.trace == l.trace + [Scan(turn.scanClock, turn.rescanClock)]
                 && r.nextScan == turn.rescanClock + SCAN_INTERVAL_MS
            else SameScans(l.trace, r.trace) && r.nextScan == l.nextScan
    ensures Announced(l.trace) ==> Announced(r.trace)
  {
    r := l;
    if exclusive {
      if turn.stopBeforeScan {
        if !l.seen {
          TrackSeen(l.trace, grace, l.sent, l.deadline, l.nextScan);
          r := l.(trace := l.trace + [StopSeen], seen := true);
        }
      } else if turn.scanClock >= l.nextScan {
        TrackScan(l.trace, grace, l.deadline, l.nextScan, turn.scanClock, turn.rescanClock);
        r := l.(trace := l.trace + [Scan(turn.scanClock, turn.rescanClock)],
                nextScan := turn.rescanClock + SCAN_INTERVAL_MS);
      }
    }
  }

  lemma GracefulQuiet(trace: seq<Event>, at: int)
    ensures SameScans(trace, trace + [Graceful(at), WroteStopping])
    ensures Announced(trace) ==> Announced(trace + [Graceful(at), WroteStopping])
  {
  }

  method GracefulPart(grace: int, turn: Turn, l: Loop) returns (r: Loop)
    requires Tracked(l, grace) && turn.graceClock + grace < INT64_MAX
    ensures Tracked(r, grace)
    ensures r.seen ==> l.seen || turn.stop
    ensures r.sent == (l.sent || turn.stop)
    ensures SameScans(l.trace, r.trace) && r.nextScan == l.nextScan
    ensures Announced(l.trace) ==> Announced(r.trace)
  {
    r := l;
    if turn.stop && !l.sent {
      if !r.seen {
        TrackSeen(r.trace, grace, r.sent, r.deadline, r.nextScan);
        r := r.(trace := r.trace + [StopSeen], seen := true);
      }
      assert SameScans(l.trace, r.trace) && (Announced(l.trace) ==> Announced(r.trace));
      GracefulQuiet(r.trace, turn.graceClock);
      TrackGraceful(r.trace, grace, r.deadline, r.nextScan, turn.graceClock);
      r := r.(trace := r.trace + [Graceful(turn.graceClock), WroteStopping], sent := true,
              deadline := turn.graceClock + grace);
    }
  }

  method KillPart(grace: int, turn: Turn, l: Loop) returns (r: Loop)
    requires Tracked(l, grace) && turn.killClock < INT64_MAX
    ensures Tracked(r, grace) && r.seen == l.seen && r.sent == l.sent
    ensures r.sent ==> r.deadline == INT64_MAX || turn.killClock < r.deadline
    ensures SameScans(l.trace, r.trace) && r.nextScan == l.nextScan
    ensures Announced(l.trace) ==> Announced(r.trace)
  {
    r := l;
    if l.sent && turn.killClock >= l.deadline {
      TrackKill(l.trace, grace, l.deadline, l.nextScan, turn.killClock);
      r := l.(trace := l.trace + [Kill(turn.killClock)], deadline := INT64_MAX);
    }
  }

  /** What the scan deadline is worth after a turn. */
  lemma ScansKept(before: Loop, scanned: Loop, after: Loop, start: int, turn: Turn)
    requires ScanDeadline(before.trace, start, before.nextScan) && ScansBefore(before.trace, turn.scanClock)
    requires turn.scanClock <= turn.killClock
    requires || (&& scanned.trace == before.trace + [Scan(turn.scanClock, turn.rescanClock)]
                 && scanned.nextScan == turn.rescanClock + SCAN_INTERVAL_MS)
             || (SameScans(before.trace, scanned.trace) && scanned.nextScan == before.nextScan)
    requires SameScans(scanned.trace, after.trace) && after.nextScan == scanned.nextScan
    ensures ScanDeadline(after.trace, start, after.nextScan) && ScansBefore(after.trace, turn.killClock)
    ensures NoScan(before.trace) && SameScans(before.trace, scanned.trace) ==> NoScan(after.trace)
  {
    var own := Scan(turn.scanClock, turn.rescanClock);
    if scanned.trace == before.trace + [own] {
      assert own in scanned.trace && own in after.trace;
    } else if before.nextScan != start + 2000 {
      var e :| e in before.trace && e.Scan? && before.nextScan == e.until + 2000;
      assert e in after.trace;
    }
  }

  /** A stop request is always acted on, and a service that outlives the grace
      period is killed. */
  ghost predicate ActsOnStop(trace: seq<Event>, grace: int, turns: seq<Turn>, lived: nat)
    requires lived <= |turns|
  {
    && ((exists i :: 0 <= i < |trace| && trace[i].Graceful?) <==> lived > 0 && turns[lived - 1].stop)
    && (lived > 0 ==>
          forall i :: 0 <= i < |trace| && trace[i].Graceful? && trace[i].at + grace <= turns[lived - 1].killClock ==>
            exists j :: 0 <= j < |trace| && trace[j].Kill?)
  }

  lemma TrackedActs(l: Loop, grace: int, turns: seq<Turn>, lived: nat)
    requires Tracked(l, grace) && lived <= |turns|
    requires l.sent <==> lived > 0 && turns[lived - 1].stop
    requires l.sent ==> l.deadline == INT64_MAX || turns[lived - 1].killClock < l.deadline
    ensures ActsOnStop(l.trace, grace, turns, lived)
  {
  }

  lemma ClosingActs(trace: seq<Event>, end: seq<Event>, grace: int, turns: seq<Turn>, lived: nat)
    requires lived <= |turns| && ActsOnStop(trace, grace, turns, lived)
    requires forall i :: 0 <= i < |end| ==> !end[i].Graceful? && !end[i].Kill? && !end[i].Scan?
    ensures ActsOnStop(trace + end, grace, turns, lived)
    ensures NoScan(trace) ==> NoScan(trace + end)
    ensures SameScans(trace, trace + end)
    ensures Announced(trace) && WroteStopping !in end ==> Announced(trace + end)
  {
    var more := trace + end;
    if i :| 0 <= i < |trace| && trace[i].Graceful? { assert more[i] == trace[i]; }
    if j :| 0 <= j < |trace| && trace[j].Kill? { assert more[j] == trace[j]; }
  }

  /** What the loop has established after n turns. */
  ghost predicate LoopInv(l: Loop, exclusive: bool, grace: int, start: int, turns: seq<Turn>, n: nat)
  {
    && n <= |turns| && Tracked(l, grace) && Announced(l.trace)
    && (l.seen ==> n > 0 && turns[n - 1].stop)
    && (l.sent <==> n > 0 && turns[n - 1].stop)
    && (l.sent ==> l.deadline == INT64_MAX || turns[n - 1].killClock < l.deadline)
    && (if exclusive then ScansWhenDue(l.trace, start, turns, n) else NoScan(l.trace))
    && ScanDeadline(l.trace, start, l.nextScan)
    && ScansBefore(l.trace, if n == 0 then start else turns[n - 1].killClock)
  }

  /** One turn with the service alive. */
  method TurnPart(exclusive: bool, grace: int, ghost start: int, turns: seq<Turn>, n: nat, l: Loop) returns (r: Loop)
    requires grace == SYSTEMD_GRACE_MS || grace == COMPAT_GRACE_MS
    requires Monotone(start, turns) && FlagMonotone(turns)
    requires n < |turns| && LoopInv(l, exclusive, grace, start, turns, n)
    ensures LoopInv(r, exclusive, grace, start, turns, n + 1)
  {
    var turn := turns[n];
    assert n > 0 ==> turns[n - 1].killClock <= turn.scanClock;
    assert n > 0 && turns[n - 1].stop ==> turn.stopBeforeScan;
    var scanned := ScanPart(exclusive, grace, turn, l);
    if exclusive { TurnScansDue(l.trace, scanned.trace, start, l.nextScan, turns, n); }
    r := GracefulPart(grace, turn, scanned);
    r := KillPart(grace, turn, r);
    ScansKept(l, scanned, r, start, turn);
    if exclusive { SameScansDue(scanned.trace, r.trace, start, turns, n + 1); }
  }

  /** The loop of `supervisor_loop` (grace 20000 ms) and `supervisor_compat_loop`
      (grace 10000 ms).  `turns` scripts its observations; running out of them means
      the service still lives.  Once it is gone, USB is restored exactly once, in
      exclusive mode only, and "stopped" is written last. */
  method Supervise(exclusive: bool, grace: int, start: int, turns: seq<Turn>)
    returns (trace: seq<Event>, finished: bool, lived: nat)
    requires grace == SYSTEMD_GRACE_MS || grace == COMPAT_GRACE_MS
    requires Monotone(start, turns) && FlagMonotone(turns)
    // the service was seen alive in exactly the first `lived` turns
    ensures lived <= |turns| && forall i :: 0 <= i < lived ==> turns[i].wait == StillRunning
    ensures finished <==> lived < |turns|
    ensures finished ==> turns[lived].wait != StillRunning
    ensures !finished ==> OrderlyStop(trace, grace)
    ensures finished ==>
              exists live ::
                && OrderlyStop(live, grace)
                && trace == live + [ServiceGone] + (if exclusive then [Restored] else [])
                            + [WroteStopped(if turns[lived].wait.Reaped? then turns[lived].wait.status else 255)]
    ensures if exclusive then ScansWhenDue(trace, start, turns, lived) else NoScan(trace)
    ensures Announced(trace) && ActsOnStop(trace, grace, turns, lived)
  {
    var l, n, f := Watch(exclusive, grace, start, turns);
    trace, lived, finished := l.trace, n, f;
    TrackedActs(l, grace, turns, n);
    if finished {
      var status := if turns[n].wait.Reaped? then turns[n].wait.status else 255;
      var end := [ServiceGone] + (if exclusive then [Restored] else []) + [WroteStopped(status)];
      Closed(l, end, exclusive, grace, start, turns, n);
      trace := trace + end;
      assert trace == l.trace + [ServiceGone] + (if exclusive then [Restored] else []) + [WroteStopped(status)];
    }
  }

  /** The loop while the service lives. */
  method Watch(exclusive: bool, grace: int, start: int, turns: seq<Turn>) returns (l: Loop, n: nat, finished: bool)
    requires grace == SYSTEMD_GRACE_MS || grace == COMPAT_GRACE_MS
    requires Monotone(start, turns) && FlagMonotone(turns)
    ensures LoopInv(l, exclusive, grace, start, turns, n)
    ensures forall i :: 0 <= i < n ==> turns[i].wait == StillRunning
    ensures (finished <==> n < |turns|) && (finished ==> turns[n].wait != StillRunning)
  {
    l, n, finished := Loop([], false, false, 0, start + SCAN_INTERVAL_MS), 0, false;
    while n < |turns|
      invariant 0 <= n <= |turns| && !finished
      invariant LoopInv(l, exclusive, grace, start, turns, n)
      invariant forall i :: 0 <= i < n ==> turns[i].wait == StillRunning
    {
      if turns[n].wait != StillRunning {
        finished := true;
        break;
      }
      l := TurnPart(exclusive, grace, start, turns, n, l);
      n := n + 1;
    }
  }

  lemma Closed(l: Loop, end: seq<Event>, exclusive: bool, grace: int, start: int, turns: seq<Turn>, n: nat)
    requires LoopInv(l, exclusive, grace, start, turns, n) && ActsOnStop(l.trace, grace, turns, n)
    requires forall i :: 0 <= i < |end| ==> !end[i].Graceful? && !end[i].Kill? && !end[i].Scan? && !end[i].WroteStopping?
    ensures if exclusive then ScansWhenDue(l.trace + end, start, turns, n) else NoScan(l.trace + end)
    ensures Announced(l.trace + end) && ActsOnStop(l.trace + end, grace, turns, n)
  {
    ClosingActs(l.trace, end, grace, turns, n);
    if exclusive { SameScansDue(l.trace, l.trace + end, start, turns, n); }
  }
}
