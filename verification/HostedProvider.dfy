/**
 The hosted-process provider itself: its locked run table and its record
 directory, changed in place.  What the kernel, the pipe and the disk answered
 comes in as parameters.  Each method leaves exactly the table and the
 directory that the events of `HostedRuns` describe.
 */
module HostedProvider {
  import opened Wrappers
  import opened Kernel
  import opened HostedTable
  import opened HostedRuns

  datatype StartError = StateDirUnreadable

  /** How listing the record directory went. */
  datatype Listing = Entries(names: seq<Handle>) | Missing | Unreadable

  datatype StopOutcome = WasGone | WasSignaled

  datatype StopAnswer =
    | UnknownHandle
    | RefusedMismatch
    | RefusedUnverifiable
    | KillDenied
    | KillFailed
    | Stopped(outcome: StopOutcome, verified: bool, dropped: bool)

  function KillAnswer(run: Run, kill: SignalResult): SignalResult {
    if Deliverable(run.record.pid) then kill else Failed
  }

  /** The whole of `stop` on one entry; `kill` is the answer of the system call. */
  function StopRun(run: Run, expected: Option<nat>, stat: Stat, kill: SignalResult, dead: bool, wait: Wait)
    : (Run, StopAnswer, bool)
  {
    var result := KillAnswer(run, kill);
    match StopCheck(run, expected, stat)
    case PidMismatch => (run, RefusedMismatch, false)
    case Unverifiable => (run, RefusedUnverifiable, false)
    case AlreadyGone(after) => (after, Stopped(WasGone, false, true), false)
    case Signal(verified) =>
      (AfterSignal(run, result, dead, wait), SignalAnswer(result, verified, dead), result == Sent)
  }

  /** What `stop` leaves of the entry: ended and without child if it concludes so, or as it was. */
  lemma StopLeavesEntry(run: Run, expected: Option<nat>, stat: Stat, kill: SignalResult, dead: bool, wait: Wait)
    ensures var (after, answer, sent) := StopRun(run, expected, stat, kill, dead, wait);
            if answer.Stopped? && answer.dropped then
              && after.record == run.record.(state := Exited, exitCode := after.record.exitCode)
              && after.record.exitCode == (if sent && run.child.Some? && wait.Done? then wait.code
                                           else run.record.exitCode)
              && after.child == None && after.stdin == run.stdin && after.source == run.source
            else
              after == run
  {
  }

  function SignalAnswer(result: SignalResult, verified: bool, dead: bool): StopAnswer {
    match result
    case NoSuchProcess => Stopped(WasGone, verified, true)
    case Sent => Stopped(WasSignaled, verified, dead)
    case Denied => KillDenied
    case Failed => KillFailed
  }

  class Provider {
    var runs: Runs
    var loaded: bool
    var disk: map<Handle, Record>

    /** A new agent process over the directory its predecessor left. */
    constructor (left: map<Handle, Record>)
      ensures runs == map[] && !loaded && disk == left
    {
      runs, loaded, disk := map[], false, left;
    }

    method EnsureLoaded(listing: Listing, stats: map<Handle, Stat>) returns (r: Result<(), StartError>)
      requires listing.Entries? ==> stats.Keys <= disk.Keys && forall h <- stats :: h in listing.names
      modifies this`runs, this`loaded
      ensures r.Err? <==> !old(loaded) && listing.Unreadable?
      ensures r.Err? || old(loaded) ==> runs == old(runs) && loaded == old(loaded)
      ensures r.Ok? && !old(loaded) ==>
                && loaded
                && runs == if listing.Missing? then map[] else map h | h in stats :: ReloadedRun(disk[h], stats[h])
      // What becomes of one record, without its functions.
      ensures r.Ok? && !old(loaded) && listing.Entries? ==> forall h <- stats ::
                var was, run := disk[h], runs[h];
                && run.record.pid == was.pid && run.record.ticks == was.ticks && run.record.exitCode == None
                && run.record.stdin == (if was.stdin == Some(Open) then Some(Lost) else was.stdin)
                && run.child == None && !run.stdin && run.source == Reconciled
                && (run.record.state == Running <==> was.pid != 0 && stats[h].ticks == Some(was.ticks))
                && (run.record.state == Unknown <==> was.pid == 0 || (stats[h].ticks.None? && stats[h].listed))
    {
      if loaded {
        return Ok(());
      }
      var found: Runs := map[];
      match listing {
        case Entries(names) =>
          for n := 0 to |names|
            invariant found.Keys == set h | h in stats && h in names[..n]
            invariant forall h <- found :: found[h] == ReloadedRun(disk[h], stats[h])
          {
            var h := names[n];
            // An entry without a reading could not be read or parsed: it is skipped.
            if h in stats {
              var record := disk[h];
              if record.stdin == Some(Open) {
                record := record.(stdin := Some(Lost));
              }
              record := record.(state := Reconcile(record.ticks, record.pid, stats[h]), exitCode := None);
              found := found[h := Run(record, None, false, Reconciled)];
            }
          }
          assert names[..|names|] == names;
          assert found.Keys == stats.Keys;
        case Missing =>
        case Unreadable => return Err(StateDirUnreadable);
      }
      runs := found;
      loaded := true;
      return Ok(());
    }

    method PersistRecord(h: Handle, record: Record, saved: Saved, pruned: set<Handle>)
      modifies this`disk
      ensures disk == Persist(old(disk), h, record, saved, pruned)
      ensures saved.Written? ==> disk == old(disk)[h := record] - pruned
      ensures saved.Unchanged? ==> disk == old(disk)
      ensures saved.Torn? ==> disk == old(disk) - {h}
    {
      if saved.Written? {
        disk := disk[h := record] - pruned;
      } else if saved.Torn? {
        disk := disk - {h};
      }
    }

    /** The last part of `start`, once the child has been spawned under `pid`. */
    method Start(handle: Handle, pid: nat, readTicks: Option<nat>, interactive: bool, oneShot: bool, piped: bool,
                 saved: Saved, pruned: set<Handle>) returns (record: Record)
      requires loaded
      modifies this`runs, this`disk
      ensures var run := StartedRun(pid, readTicks, interactive, oneShot, piped);
              && record == run.record
              && runs == old(runs)[handle := run]
              && disk == Persist(old(disk), handle, record, saved, pruned)
      ensures record.pid == pid && record.state == Running && record.exitCode == None
      ensures record.ticks == match readTicks { case Some(t) => t case None => 0 }
      ensures record.stdin == Some(Open) <==> interactive && piped
      ensures record.stdin == Some(Once) <==> oneShot && !interactive && piped
      ensures record.stdin == Some(NotTaken) <==> !piped || (!interactive && !oneShot)
      ensures runs[handle] == Run(record, Some(pid), record.stdin == Some(Open), Spawned)
    {
      var ticks := if readTicks.Some? then readTicks.value else 0;
      var pipe := (oneShot || interactive) && piped;
      var mode;
      if pipe && interactive {
        mode := Open;
      } else if pipe {
        mode := Once;
      } else {
        mode := NotTaken;
      }
      record := Record(pid, ticks, Some(mode), Running, None);
      PersistRecord(handle, record, saved, pruned);
      runs := runs[handle := Run(record, Some(pid), interactive && pipe, Spawned)];
    }

    /**
     The last part of `adopt`, once the evidence has been accepted: a live
     record of the same pid is returned instead of a second handle.
     */
    method Adopt(candidate: Handle, pid: nat, ticks: nat, saved: Saved, pruned: set<Handle>)
      returns (handle: Handle, already: bool)
      requires loaded
      modifies this`runs, this`disk
      ensures already <==>
                exists h <- old(runs) :: old(runs)[h].record.pid == pid && old(runs)[h].record.state == Running
      ensures already ==>
                && runs == old(runs) && disk == old(disk) && handle in runs
                && runs[handle].record.pid == pid && runs[handle].record.state == Running
      ensures !already ==>
                && handle == candidate && runs == old(runs)[candidate := AdoptedRun(pid, ticks)]
                && disk == Persist(old(disk), candidate, AdoptedRun(pid, ticks).record, saved, pruned)
                && runs[handle] == Run(Record(pid, ticks, Some(NotTaken), Running, None), None, false, Adopted)
    {
      var left := runs.Keys;
      while left != {}
        invariant left <= runs.Keys
        invariant forall h <- runs.Keys - left :: !(runs[h].record.pid == pid && runs[h].record.state == Running)
        decreases left
      {
        var h :| h in left;
        if runs[h].record.pid == pid && runs[h].record.state == Running {
          return h, true;
        }
        left := left - {h};
      }
      var record := Record(pid, ticks, Some(NotTaken), Running, None);
      PersistRecord(candidate, record, saved, pruned);
      runs := runs[candidate := Run(record, None, false, Adopted)];
      return candidate, false;
    }

    /** `refresh`: every entry once, in any order. */
    method Refresh(waits: Handle -> Wait, stats: Handle -> Stat)
      requires loaded
      modifies this`runs
      ensures runs == map h | h in old(runs) :: RefreshRun(old(runs)[h], waits(h), stats(h))
      // What becomes of one entry: a held child is what `try_wait` says ...
      ensures forall h <- old(runs) | old(runs)[h].child.Some? ::
                var was, state := old(runs)[h], runs[h].record.state;
                && (state == Running <==> waits(h).StillRunning?)
                && (state == Exited <==> waits(h).Done?)
                && runs[h] == if waits(h).Done?
                   then Run(was.record.(state := Exited, exitCode := waits(h).code), None, was.stdin, was.source)
                   else was.(record := was.record.(state := state))
      // ... and any other process what its start time says.
      ensures forall h <- old(runs) | old(runs)[h].child.None? ::
                var was, state := old(runs)[h], runs[h].record.state;
                && (state == Running <==> was.record.pid != 0 && stats(h).ticks == Some(was.record.ticks))
                && (state == Unknown <==> was.record.pid == 0 || (stats(h).ticks.None? && stats(h).listed))
                && runs[h] == was.(record := was.record.(state := state))
    {
      var left := runs.Keys;
      while left != {}
        invariant left <= runs.Keys == old(runs).Keys
        invariant forall h <- runs ::
          runs[h] == if h in left then old(runs)[h] else RefreshRun(old(runs)[h], waits(h), stats(h))
        decreases left
      {
        var h :| h in left;
        var run := runs[h];
        if run.child.Some? {
          match waits(h) {
            case Done(code) =>
              run := run.(record := run.record.(state := Exited, exitCode := code), child := None);
            case StillRunning =>
              run := run.(record := run.record.(state := Running));
            case WaitFailed =>
              run := run.(record := run.record.(state := Unknown));
          }
        } else {
          run := run.(record := run.record.(state := Reconcile(run.record.ticks, run.record.pid, stats(h))));
        }
        runs := runs[h := run];
        left := left - {h};
      }
    }

    /** `polls` are the looks of `poll_dead`, up to the one at the deadline. */
    method Stop(handle: Handle, expected: Option<nat>, stat: Stat, kill: SignalResult, polls: seq<Poll>,
                wait: Wait, removed: bool)
      returns (answer: StopAnswer, signalled: Option<nat>)
      requires loaded
      modifies this`runs, this`disk
      ensures handle !in old(runs) ==>
                answer == UnknownHandle && signalled == None && runs == old(runs) && disk == old(disk)
      ensures handle in old(runs) ==>
                var (after, expectedAnswer, sent) :=
                  StopRun(old(runs)[handle], expected, stat, kill, PolledDead(polls), wait);
                && answer == expectedAnswer
                && signalled == (if sent then Some(old(runs)[handle].record.pid) else None)
                && runs == old(runs)[handle := after]
                && disk == DropPersisted(old(disk), handle, answer.Stopped? && answer.dropped && removed)
      // When it must refuse, when it must find the process gone, and when it must signal.
      ensures handle in old(runs) ==>
                var run := old(runs)[handle];
                var pid, owned, verified := run.record.pid, run.child.Some?, stat.ticks == Some(run.record.ticks);
                var gone := if stat.ticks.Some? then !verified else !stat.listed && !owned;
                var blind := stat.ticks.None? && stat.listed && !owned;
                var killed := if 0 < pid <= 0x7fff_ffff then kill else Failed;
                if expected.Some? && expected.value != pid then answer == RefusedMismatch && signalled == None
                else if gone then answer == Stopped(WasGone, false, true) && signalled == None
                else if blind then answer == RefusedUnverifiable && signalled == None
                else
                  && signalled == (if killed == Sent then Some(pid) else None)
                  && (killed == Sent ==> answer == Stopped(WasSignaled, verified, exists p <- polls :: SaysDead(p)))
                  && (killed == NoSuchProcess ==> answer == Stopped(WasGone, verified, true))
                  && (killed == Denied ==> answer == KillDenied)
                  && (killed == Failed ==> answer == KillFailed)
    {
      if handle !in runs {
        return UnknownHandle, None;
      }
      var run := runs[handle];
      assert runs == runs[handle := run];
      var check := CheckIdentity(run, expected, stat);
      match check {
        case PidMismatch => return RefusedMismatch, None;
        case Unverifiable => return RefusedUnverifiable, None;
        case AlreadyGone(after) =>
          runs := runs[handle := after];
          Forget(handle, removed);
          return Stopped(WasGone, false, true), None;
        case Signal(verified) =>
          answer, signalled := SignalRun(handle, verified, kill, polls, wait, removed);
      }
    }

    /** The part of `stop` in front of the signal: whose process is it? */
    method CheckIdentity(run: Run, expected: Option<nat>, stat: Stat) returns (check: StopDecision)
      ensures check == StopCheck(run, expected, stat)
      ensures check.PidMismatch? <==> expected.Some? && expected.value != run.record.pid
      ensures check.Signal? <==>
                && (expected.Some? ==> expected.value == run.record.pid)
                && (stat.ticks == Some(run.record.ticks) || (stat.ticks.None? && run.child.Some?))
      ensures check.Signal? ==> (check.verified <==> stat.ticks.Some?)
      ensures check.Unverifiable? <==>
                && (expected.Some? ==> expected.value == run.record.pid)
                && stat.ticks.None? && stat.listed && run.child.None?
      ensures check.AlreadyGone? ==>
                check.run == Run(run.record.(state := Exited), None, run.stdin, run.source)
    {
      if expected.Some? && expected.value != run.record.pid {
        return PidMismatch;
      }
      var owned := run.child.Some?;
      if stat.ticks.Some? {
        if stat.ticks.value == run.record.ticks {
          return Signal(true);
        }
        return AlreadyGone(run.(record := run.record.(state := Exited), child := None));
      }
      if !owned && !stat.listed {
        return AlreadyGone(run.(record := run.record.(state := Exited)));
      }
      if !owned {
        return Unverifiable;
      }
      return Signal(false);
    }

    /** The part of `stop` from the signal on. */
    method SignalRun(handle: Handle, verified: bool, kill: SignalResult, polls: seq<Poll>, wait: Wait, removed: bool)
      returns (answer: StopAnswer, signalled: Option<nat>)
      requires loaded && handle in runs
      modifies this`runs, this`disk
      ensures var run := old(runs)[handle];
              var result := KillAnswer(run, kill);
              && answer == SignalAnswer(result, verified, PolledDead(polls))
              && signalled == (if result == Sent then Some(run.record.pid) else None)
              && runs == old(runs)[handle := AfterSignal(run, result, PolledDead(polls), wait)]
              && disk == DropPersisted(old(disk), handle, answer.Stopped? && answer.dropped && removed)
      ensures signalled.Some? ==> answer == Stopped(WasSignaled, verified, exists p <- polls :: SaysDead(p))
    {
      var run := runs[handle];
      var pid := run.record.pid;
      assert runs == runs[handle := run];
      var result := SendSignal(pid, kill);
      match result {
        case NoSuchProcess =>
          runs := runs[handle := run.(record := run.record.(state := Exited), child := None)];
          Forget(handle, removed);
          return Stopped(WasGone, verified, true), None;
        case Denied => return KillDenied, None;
        case Failed => return KillFailed, None;
        case Sent =>
          var dead := PollDead(polls);
          if dead {
            run := ReapRun(run, wait);
            runs := runs[handle := run.(record := run.record.(state := Exited))];
            Forget(handle, removed);
          }
          return Stopped(WasSignaled, verified, dead), Some(pid);
      }
    }

    /** `poll_dead`: looks until one says dead or time is up. */
    method PollDead(polls: seq<Poll>) returns (dead: bool)
      ensures dead <==> exists p <- polls :: SaysDead(p)
      ensures dead == PolledDead(polls)
    {
      assert polls[0..] == polls;
      for n := 0 to |polls|
        invariant forall p <- polls[..n] :: !SaysDead(p)
        invariant PolledDead(polls) == PolledDead(polls[n..])
      {
        assert polls[n..][0] == polls[n] && polls[n..][1..] == polls[n + 1..];
        if SaysDead(polls[n]) {
          return true;
        }
      }
      return false;
    }

    /** `send_signal`: a pid that is no positive `pid_t` never reaches `kill`. */
    method SendSignal(pid: nat, kill: SignalResult) returns (result: SignalResult)
      ensures result == if 0 < pid <= 0x7fff_ffff then kill else Failed
    {
      var raw := if pid <= MAX_PID then pid else 0;
      if raw <= 0 {
        return Failed;
      }
      return kill;
    }

    method Forget(handle: Handle, removed: bool)
      modifies this`disk
      ensures disk == DropPersisted(old(disk), handle, removed)
      ensures disk == if removed then old(disk) - {handle} else old(disk)
    {
      if removed {
        disk := disk - {handle};
      }
    }

    /** The first locked section of `write`: true when the pipe was handed out. */
    method BeginWrite(handle: Handle, wait: Wait) returns (pipe: bool)
      requires loaded
      modifies this`runs
      ensures pipe <==> handle in old(runs) && TakePipe(old(runs)[handle], wait).Pipe?
      ensures runs ==
              if handle in old(runs) && TakePipe(old(runs)[handle], wait).Gone?
              then old(runs)[handle := TakePipe(old(runs)[handle], wait).run] else old(runs)
      // A finished child is reaped with its code; otherwise the pipe is handed out exactly if it is held and open.
      ensures handle in old(runs) ==>
                var run := old(runs)[handle];
                var finished := run.child.Some? && wait.Done?;
                && (pipe <==> && !finished && (run.child.None? ==> run.record.state != Exited)
                              && run.stdin && run.record.stdin == Some(Open))
                && runs == if finished
                   then old(runs)[handle := run.(record := run.record.(exitCode := wait.code), child := None)]
                   else old(runs)
    {
      if handle !in runs {
        return false;
      }
      var run := runs[handle];
      assert runs == runs[handle := run];
      var gone;
      if run.child.Some? {
        if wait.Done? {
          run := ReapRun(run, wait);
          runs := runs[handle := run];
          gone := true;
        } else {
          gone := false;
        }
      } else {
        gone := run.record.state == Exited;
      }
      if gone {
        return false;
      }
      return run.stdin && run.record.stdin == Some(Open);
    }

    /** The second locked section of `write`, after the bytes went through. */
    method EndWrite(handle: Handle, close: bool, saved: Saved, pruned: set<Handle>) returns (found: bool)
      requires loaded
      modifies this`runs, this`disk
      ensures found <==> handle in old(runs)
      ensures !found ==> runs == old(runs) && disk == old(disk)
      ensures found ==>
                var run := if close then WithoutStdin(old(runs)[handle], Once) else old(runs)[handle];
                && runs == old(runs)[handle := run]
                && disk == Persist(old(disk), handle, run.record, saved, pruned)
      ensures found && close ==>
                var run := old(runs)[handle];
                runs[handle] == run.(record := run.record.(stdin := Some(Once)), stdin := false)
    {
      if handle !in runs {
        return false;
      }
      var run := runs[handle];
      if close {
        run := run.(stdin := false);
        run := run.(record := run.record.(stdin := Some(Once)));
      }
      runs := runs[handle := run];
      PersistRecord(handle, run.record, saved, pruned);
      return true;
    }

    /** `drop_stdin`: the pipe turned out to be broken. */
    method DropStdin(handle: Handle, mode: StdinMode, saved: Saved, pruned: set<Handle>)
      requires loaded
      modifies this`runs, this`disk
      ensures handle !in old(runs) ==> runs == old(runs) && disk == old(disk)
      ensures handle in old(runs) ==>
                var run := WithoutStdin(old(runs)[handle], mode);
                && runs == old(runs)[handle := run]
                && disk == Persist(old(disk), handle, run.record, saved, pruned)
                && !run.stdin && run.record == old(runs)[handle].record.(stdin := Some(mode))
                && run.child == old(runs)[handle].child && run.source == old(runs)[handle].source
    {
      if handle in runs {
        var run := runs[handle];
        run := run.(stdin := false, record := run.record.(stdin := Some(mode)));
        runs := runs[handle := run];
        PersistRecord(handle, run.record, saved, pruned);
      }
    }
  }

  lemma Unroll(w: World, e: Event, rest: seq<Event>)
    requires Possible(w, [e] + rest)
    ensures Enabled(w, e) && Possible(Apply(w, e), rest) && After(w, [e] + rest) == After(Apply(w, e), rest)
  {
    assert ([e] + rest)[1..] == rest;
  }

  // ---- the methods and the machine ----

  /** The looks of `poll_dead` as events, and what follows them. */
  function PollEvents(polls: seq<Poll>, rest: seq<Event>): seq<Event> {
    if polls == [] then rest
    else [StopPoll(polls[0])] + if SaysDead(polls[0]) then rest else PollEvents(polls[1..], rest)
  }

  /** The events of `stop` from the signal on. */
  function SignalEvents(result: SignalResult, polls: seq<Poll>, wait: Wait, removed: bool): seq<Event> {
    [StopSignal(result, removed)] + if result == Sent then PollEvents(polls, [StopEnd(wait, removed)] + []) else []
  }

  /** All events of one `stop`. */
  function StopEvents(run: Run, h: Handle, expected: Option<nat>, stat: Stat, kill: SignalResult, polls: seq<Poll>,
                      wait: Wait, removed: bool): seq<Event> {
    [StopBegin(h, expected, stat, removed)] +
    if StopCheck(run, expected, stat).Signal? then SignalEvents(KillAnswer(run, kill), polls, wait, removed) else []
  }

  lemma {:induction false} PollPart(w: World, h: Handle, polls: seq<Poll>, rest: seq<Event>)
    requires w.stopping == Signalled(h, false) && Possible(w, PollEvents(polls, rest))
    ensures var v := w.(stopping := Signalled(h, PolledDead(polls)));
            Possible(v, rest) && After(w, PollEvents(polls, rest)) == After(v, rest)
    decreases |polls|
  {
    if polls == [] {
      assert w == w.(stopping := Signalled(h, false));
    } else {
      var next := if SaysDead(polls[0]) then rest else PollEvents(polls[1..], rest);
      Unroll(w, StopPoll(polls[0]), next);
      var v := w.(stopping := Signalled(h, SaysDead(polls[0])));
      assert Apply(w, StopPoll(polls[0])) == v;
      if !SaysDead(polls[0]) {
        PollPart(v, h, polls[1..], rest);
      }
    }
  }

  /** What is left of `w` when `stop` has answered. */
  ghost predicate StopLeaves(w: World, v: World, h: Handle, after: Run, dropped: bool, sent: bool)
    requires h in w.runs
  {
    && v.runs == w.runs[h := after] && v.stopping == Idle
    && v.disk == DropPersisted(w.disk, h, dropped)
    && |v.delivered| == |w.delivered| + if sent then 1 else 0
  }

  lemma SignalGoes(w: World, h: Handle, removed: bool)
    requires w.stopping == Checked(h) && h in w.runs && Able(w, StopSignal(Sent, removed))
    ensures var pid := w.runs[h].record.pid;
            && pid in w.kernel.procs
            && Apply(w, StopSignal(Sent, removed))
               == w.(stopping := Signalled(h, false),
                     delivered := w.delivered + [Delivery(h, Incarnation(pid, w.kernel.procs[pid].ticks))])
  {
  }

  lemma EndPart(u: World, h: Handle, dead: bool, wait: Wait, removed: bool)
    requires u.stopping == Signalled(h, dead) && h in u.runs && Possible(u, [StopEnd(wait, removed)] + [])
    ensures StopLeaves(u, After(u, [StopEnd(wait, removed)] + []), h, AfterSignal(u.runs[h], Sent, dead, wait),
                       dead && removed, false)
  {
    Unroll(u, StopEnd(wait, removed), []);
    assert u.runs == u.runs[h := u.runs[h]];
  }

  lemma SentPart(w: World, h: Handle, polls: seq<Poll>, wait: Wait, removed: bool)
    requires w.stopping == Checked(h) && h in w.runs && Possible(w, SignalEvents(Sent, polls, wait, removed))
    ensures var dead := PolledDead(polls);
            StopLeaves(w, After(w, SignalEvents(Sent, polls, wait, removed)), h,
                       AfterSignal(w.runs[h], Sent, dead, wait), dead && removed, true)
  {
    var end := [StopEnd(wait, removed)] + [];
    Unroll(w, StopSignal(Sent, removed), PollEvents(polls, end));
    SignalGoes(w, h, removed);
    var d := Delivery(h, Incarnation(w.runs[h].record.pid, w.kernel.procs[w.runs[h].record.pid].ticks));
    var v := w.(stopping := Signalled(h, false), delivered := w.delivered + [d]);
    PollPart(v, h, polls, end);
    EndPart(v.(stopping := Signalled(h, PolledDead(polls))), h, PolledDead(polls), wait, removed);
  }

  lemma SignalPart(w: World, h: Handle, result: SignalResult, polls: seq<Poll>, wait: Wait, removed: bool)
    requires w.stopping == Checked(h) && h in w.runs
    requires Possible(w, SignalEvents(result, polls, wait, removed))
    ensures var dead := PolledDead(polls);
            StopLeaves(w, After(w, SignalEvents(result, polls, wait, removed)), h,
                       AfterSignal(w.runs[h], result, dead, wait),
                       (result == NoSuchProcess || (result == Sent && dead)) && removed, result == Sent)
  {
    if result == Sent {
      SentPart(w, h, polls, wait, removed);
    } else {
      Unroll(w, StopSignal(result, removed), []);
      assert w.runs == w.runs[h := w.runs[h]];
    }
  }

  lemma BeginPart(w: World, h: Handle, expected: Option<nat>, stat: Stat, removed: bool)
    requires h in w.runs && Enabled(w, StopBegin(h, expected, stat, removed))
    ensures var v := Apply(w, StopBegin(h, expected, stat, removed));
            match StopCheck(w.runs[h], expected, stat)
            case AlreadyGone(after) => StopLeaves(w, v, h, after, removed, false)
            case Signal(_) => v == w.(stopping := Checked(h))
            case _ => StopLeaves(w, v, h, w.runs[h], false, false)
  {
    assert w.runs == w.runs[h := w.runs[h]];
  }

  lemma SignalledStop(w: World, h: Handle, expected: Option<nat>, stat: Stat, kill: SignalResult, polls: seq<Poll>,
                      wait: Wait, removed: bool)
    requires h in w.runs && StopCheck(w.runs[h], expected, stat).Signal?
    requires var begin, result := StopBegin(h, expected, stat, removed), KillAnswer(w.runs[h], kill);
             Possible(w, [begin] + SignalEvents(result, polls, wait, removed))
    ensures var begin, result := StopBegin(h, expected, stat, removed), KillAnswer(w.runs[h], kill);
            var dead := PolledDead(polls);
            StopLeaves(w, After(w, [begin] + SignalEvents(result, polls, wait, removed)), h,
                       AfterSignal(w.runs[h], result, dead, wait),
                       (result == NoSuchProcess || (result == Sent && dead)) && removed, result == Sent)
  {
    var result := KillAnswer(w.runs[h], kill);
    Unroll(w, StopBegin(h, expected, stat, removed), SignalEvents(result, polls, wait, removed));
    BeginPart(w, h, expected, stat, removed);
    SignalPart(w.(stopping := Checked(h)), h, result, polls, wait, removed);
  }

  /**
   `Provider.Stop`, run undisturbed, is the stop events of the state machine in
   a row, whatever its check decides: same entry, same directory, and a signal
   exactly when it says so.
   */
  lemma StopIsItsEvents(w: World, h: Handle, expected: Option<nat>, stat: Stat, kill: SignalResult, polls: seq<Poll>,
                        wait: Wait, removed: bool)
    requires h in w.runs && Possible(w, StopEvents(w.runs[h], h, expected, stat, kill, polls, wait, removed))
    ensures var (after, answer, sent) := StopRun(w.runs[h], expected, stat, kill, PolledDead(polls), wait);
            StopLeaves(w, After(w, StopEvents(w.runs[h], h, expected, stat, kill, polls, wait, removed)), h, after,
                    answer.Stopped? && answer.dropped && removed, sent)
  {
    if StopCheck(w.runs[h], expected, stat).Signal? {
      SignalledStop(w, h, expected, stat, kill, polls, wait, removed);
    } else {
      Unroll(w, StopBegin(h, expected, stat, removed), []);
      BeginPart(w, h, expected, stat, removed);
    }
  }

  /** `Provider.Start`, run undisturbed, is three events in a row. */
  lemma StartIsItsEvents(w: World, h: Handle, pid: nat, ticks: nat, readable: bool, interactive: bool, oneShot: bool,
                         piped: bool, saved: Saved, pruned: set<Handle>)
    requires var spawn := StartSpawn(h, pid, ticks, readable, interactive, oneShot, piped);
             Possible(w, [spawn] + ([StartPersist(h, saved, pruned)] + ([StartInsert(h)] + [])))
    ensures var spawn := StartSpawn(h, pid, ticks, readable, interactive, oneShot, piped);
            var v := After(w, [spawn] + ([StartPersist(h, saved, pruned)] + ([StartInsert(h)] + [])));
            var run := StartedRun(pid, if readable then Some(ticks) else None, interactive, oneShot, piped);
            && v.runs == w.runs[h := run]
            && v.disk == Persist(w.disk, h, run.record, saved, pruned)
            && v.kernel == Fork(w.kernel, pid, ticks, true)
            && v.born == w.born[h := Incarnation(pid, ticks)]
  {
    var spawn := StartSpawn(h, pid, ticks, readable, interactive, oneShot, piped);
    var save, enter := StartPersist(h, saved, pruned), StartInsert(h);
    var run := StartedRun(pid, if readable then Some(ticks) else None, interactive, oneShot, piped);
    Unroll(w, spawn, [save] + ([enter] + []));
    var v := w.(kernel := Fork(w.kernel, pid, ticks, true), starting := w.starting[h := run],
                born := w.born[h := Incarnation(pid, ticks)]);
    Unroll(v, save, [enter] + []);
    Unroll(v.(disk := Persist(w.disk, h, run.record, saved, pruned)), enter, []);
  }

  /** The refresh of these entries, one after the other. */
  function RefreshEvents(hs: seq<Handle>, waits: Handle -> Wait, stats: Handle -> Stat): seq<Event> {
    if hs == [] then []
    else [HostedRuns.Refresh(hs[0], waits(hs[0]), stats(hs[0]))] + RefreshEvents(hs[1..], waits, stats)
  }

  /** `Provider.Refresh` is one event for each entry, in any order. */
  lemma {:induction false} RefreshIsItsEvents(w: World, hs: seq<Handle>, waits: Handle -> Wait, stats: Handle -> Stat)
    requires Possible(w, RefreshEvents(hs, waits, stats)) && forall i, j | 0 <= i < j < |hs| :: hs[i] != hs[j]
    ensures var v := After(w, RefreshEvents(hs, waits, stats));
            && v.runs.Keys == w.runs.Keys && v.disk == w.disk
            && forall h <- w.runs ::
                 v.runs[h] == if h in hs then RefreshRun(w.runs[h], waits(h), stats(h)) else w.runs[h]
    decreases |hs|
  {
    if hs != [] {
      var h, rest := hs[0], hs[1..];
      var e := HostedRuns.Refresh(h, waits(h), stats(h));
      Unroll(w, e, RefreshEvents(rest, waits, stats));
      RefreshIsItsEvents(Apply(w, e), rest, waits, stats);
      assert h !in rest;
    }
  }

  /** `write`, from the pipe it is handed to the record it leaves. */
  lemma WriteIsItsEvents(w: World, h: Handle, id: nat, wait: Wait, close: bool, saved: Saved, pruned: set<Handle>)
    requires var take, done := WriteTake(id, h, wait, close), WriteDone(id, saved, pruned);
             Possible(w, [take] + ([done] + [])) && TakePipe(w.runs[h], wait).Pipe?
    ensures var take, done := WriteTake(id, h, wait, close), WriteDone(id, saved, pruned);
            var v := After(w, [take] + ([done] + []));
            var run := if close then WithoutStdin(w.runs[h], Once) else w.runs[h];
            && v.runs == w.runs[h := run]
            && v.disk == Persist(w.disk, h, run.record, saved, pruned)
  {
    var take, done := WriteTake(id, h, wait, close), WriteDone(id, saved, pruned);
    Unroll(w, take, [done] + []);
    Unroll(Apply(w, take), done, []);
  }

  /** The other ends of `write`: a pipe that is not handed out, and one that breaks. */
  lemma WriteEndsAreEvents(w: World, h: Handle, id: nat, wait: Wait, close: bool, saved: Saved, pruned: set<Handle>)
    ensures Able(w, WriteTake(id, h, wait, close)) ==>
              var v, take := Apply(w, WriteTake(id, h, wait, close)), TakePipe(w.runs[h], wait);
              && v.runs == (if take.Gone? then w.runs[h := take.run] else w.runs) && v.disk == w.disk
              && v.writing == if take.Pipe? then w.writing[id := Writing(h, close)] else w.writing
    ensures Able(w, WriteBroken(id, saved, pruned)) && w.writing[id].handle == h && h in w.runs ==>
              var v, run := Apply(w, WriteBroken(id, saved, pruned)), WithoutStdin(w.runs[h], Lost);
              v.runs == w.runs[h := run] && v.disk == Persist(w.disk, h, run.record, saved, pruned)
  {
  }

  /** `Provider.Adopt`, when it does not find the process in the table already, is one event. */
  lemma AdoptIsItsEvent(w: World, h: Handle, pid: nat, ticks: nat, saved: Saved, pruned: set<Handle>)
    requires Able(w, HostedRuns.Adopt(h, pid, ticks, saved, pruned))
    ensures var v, run := Apply(w, HostedRuns.Adopt(h, pid, ticks, saved, pruned)), AdoptedRun(pid, ticks);
            && v.runs == w.runs[h := run] && v.born == w.born[h := Incarnation(pid, ticks)]
            && v.disk == Persist(w.disk, h, run.record, saved, pruned)
            && !exists g <- w.runs :: w.runs[g].record.pid == pid && w.runs[g].record.state == Running
  {
  }

  /** Reading back these records, one after the other. */
  function LoadEvents(hs: seq<Handle>, stats: Handle -> Stat): seq<Event> {
    if hs == [] then [LoadEnd] + [] else [LoadOne(hs[0], stats(hs[0]))] + LoadEvents(hs[1..], stats)
  }

  /** `Provider.EnsureLoaded` is one event for each record, and the one that enters them. */
  lemma {:induction false} LoadIsItsEvents(w: World, hs: seq<Handle>, stats: Handle -> Stat)
    requires Possible(w, LoadEvents(hs, stats))
    ensures var v := After(w, LoadEvents(hs, stats));
            && v.loaded && v.disk == w.disk
            && v.runs.Keys == w.loading.Keys + (set h | h in hs)
            && (forall h <- hs :: h in w.disk && v.runs[h] == ReloadedRun(w.disk[h], stats(h)))
            && (forall h <- w.loading :: h !in hs ==> v.runs[h] == w.loading[h])
    decreases |hs|
  {
    if hs == [] {
      Unroll(w, LoadEnd, []);
    } else {
      Unroll(w, LoadOne(hs[0], stats(hs[0])), LoadEvents(hs[1..], stats));
      LoadIsItsEvents(Apply(w, LoadOne(hs[0], stats(hs[0]))), hs[1..], stats);
      assert hs == [hs[0]] + hs[1..];
    }
  }
}
