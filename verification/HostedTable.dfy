/**
 The run table of the hosted-process provider: its entries and the decisions
 taken on them, as functions of what the kernel answered.

 `HostedProvider` runs these decisions on its fields; `HostedRuns` composes
 them with a hostile kernel.
 */
module HostedTable {
  import opened Wrappers
  import opened Kernel
  import ProcStat

  type Handle = string

  datatype StdinMode = NotTaken | Open | Once | Lost
  datatype RunState = Running | Exited | Unknown
  datatype RunSource = Spawned | Reconciled | Adopted

  /** The persisted part.  `ticks` is 0 when the start time could not be read. */
  datatype Record = Record(pid: nat, ticks: nat, stdin: Option<StdinMode>, state: RunState, exitCode: Option<int>)

  /** `child` is the pid of the Child handle, `stdin` whether a write handle is held. */
  datatype Run = Run(record: Record, child: Option<nat>, stdin: bool, source: RunSource)

  type Runs = map<Handle, Run>

  /** The largest pid `kill` can be given: a C `pid_t`. */
  const MAX_PID := 0x7fff_ffff
  /** How many record files `prune_state_dir` keeps. */
  const MAX_RUN_RECORDS := 200

  // ---- entries ----

  function StartedRun(pid: nat, ticks: Option<nat>, interactive: bool, oneShot: bool, piped: bool): Run {
    // The mode states which pipe was really obtained, not which one was asked for.
    var pipe := (oneShot || interactive) && piped;
    var mode := if !pipe then NotTaken else if interactive then Open else Once;
    Run(Record(pid, match ticks { case Some(t) => t case None => 0 }, Some(mode), Running, None),
        Some(pid), interactive && pipe, Spawned)
  }

  function AdoptedRun(pid: nat, ticks: nat): Run {
    Run(Record(pid, ticks, Some(NotTaken), Running, None), None, false, Adopted)
  }

  /** What a record read back from disk becomes. */
  function ReloadedRun(record: Record, stat: Stat): Run {
    var mode := if record.stdin == Some(Open) then Some(Lost) else record.stdin;
    Run(record.(stdin := mode, state := Reconcile(record.ticks, record.pid, stat), exitCode := None),
        None, false, Reconciled)
  }

  // ---- decisions ----

  function Reconcile(ticks: nat, pid: nat, stat: Stat): RunState {
    if pid == 0 then Unknown
    else match stat.ticks
      case Some(t) => if t == ticks then Running else Exited
      case None => if !stat.listed then Exited else Unknown
  }

  function RefreshRun(run: Run, wait: Wait, stat: Stat): Run {
    if run.child.Some? then
      match wait
      case Done(code) => run.(record := run.record.(state := Exited, exitCode := code), child := None)
      case StillRunning => run.(record := run.record.(state := Running))
      case WaitFailed => run.(record := run.record.(state := Unknown))
    else
      run.(record := run.record.(state := Reconcile(run.record.ticks, run.record.pid, stat)))
  }

  /** `reap`: take the exit code if there is one, and give the Child handle up in any case. */
  function ReapRun(run: Run, wait: Wait): Run {
    if run.child.None? then run
    else match wait
      case Done(code) => run.(record := run.record.(exitCode := code), child := None)
      case _ => run.(child := None)
  }

  datatype StopDecision =
    | PidMismatch
    | AlreadyGone(run: Run)
    | Unverifiable
    | Signal(verified: bool)

  /** What `stop` makes of its identity check, before any signal. */
  function StopCheck(run: Run, expected: Option<nat>, stat: Stat): StopDecision {
    if expected.Some? && expected.value != run.record.pid then PidMismatch
    else match stat.ticks
      case Some(t) =>
        if t == run.record.ticks then Signal(true)
        else AlreadyGone(run.(record := run.record.(state := Exited), child := None))
      case None =>
        if run.child.Some? then Signal(false)
        else if !stat.listed then AlreadyGone(run.(record := run.record.(state := Exited)))
        else Unverifiable
  }

  datatype SignalResult = Sent | NoSuchProcess | Denied | Failed

  /** What `stop` leaves behind once `kill` has answered; `dead` is what `poll_dead` said. */
  function AfterSignal(run: Run, result: SignalResult, dead: bool, wait: Wait): Run {
    match result
    case NoSuchProcess => run.(record := run.record.(state := Exited), child := None)
    case Sent =>
      if dead then var r := ReapRun(run, wait); r.(record := r.record.(state := Exited))
      else run
    case _ => run
  }

  // ---- waiting for the end ----

  /** The text of `/proc/<pid>/stat`; None when it cannot be read. */
  type Poll = Option<string>

  /** One look of `poll_dead`: an unreadable file counts as a process that is gone. */
  predicate SaysDead(p: Poll) {
    p.None? || ProcStat.PolledState(p.value) == Some('Z')
  }

  /** What `poll_dead` answers after these looks; the last is the one at the deadline. */
  predicate PolledDead(polls: seq<Poll>) {
    polls != [] && (SaysDead(polls[0]) || PolledDead(polls[1..]))
  }

  /** A look can fail at any time; a text that is read shows the state of whoever has the pid. */
  predicate PollTrue(k: Table, pid: nat, p: Poll) {
    p.Some? ==> pid in k.procs && (ProcStat.PolledState(p.value) == Some('Z') <==> k.procs[pid].zombie)
  }

  /** The line the kernel prints is such a text, whatever the process is called. */
  lemma PrintedLineIsTrue(k: Table, pid: nat, comm: string, columns: seq<string>, pads: seq<string>, state: char,
                          ppid: nat, ticks: nat)
    requires pid in k.procs && ProcStat.StatColumns(columns, pads, state, ppid, ticks)
    requires state == 'Z' <==> k.procs[pid].zombie
    ensures PollTrue(k, pid, Some(ProcStat.StatLine(pid, comm, columns, pads)))
  {
    ProcStat.StatReadBack(pid, comm, columns, pads, state, ppid, ticks);
  }

  /**
   A look that says dead can be trusted whatever the kernel is, also when the pid has a new
   owner, exactly when it read something.
   */
  lemma PollVerdictIff(i: Incarnation, p: Poll)
    requires i.pid > 0 && i.ticks > 0 && SaysDead(p)
    ensures (forall k: Table :: Valid(k) && PollTrue(k, i.pid, p) ==> !RunningThere(k, i)) <==> p.Some?
  {
    if p.None? {
      var k := Fork(Table(map[], {}), i.pid, i.ticks, false);
      assert Valid(k) && PollTrue(k, i.pid, p) && RunningThere(k, i);
    }
  }

  /** A look that reads something says dead exactly when it reads a zombie. */
  lemma ReadLookIsExact(k: Table, pid: nat, text: string)
    requires PollTrue(k, pid, Some(text))
    ensures SaysDead(Some(text)) <==> k.procs[pid].zombie
  {
  }

  datatype Take =
    | Gone(run: Run)
    | Pipe
    | NoPipe

  /** The first locked section of `write`. */
  function TakePipe(run: Run, wait: Wait): Take {
    if run.child.Some? && wait.Done? then Gone(ReapRun(run, wait))
    else if run.child.None? && run.record.state == Exited then Gone(run)
    else if run.stdin && run.record.stdin == Some(Open) then Pipe
    else NoPipe
  }

  function WithoutStdin(run: Run, mode: StdinMode): Run {
    run.(stdin := false, record := run.record.(stdin := Some(mode)))
  }

  // ---- what an entry has to do with its process ----

  /** The record names the incarnation, up to an unreadable start time. */
  ghost predicate Describes(r: Record, i: Incarnation) {
    r.pid == i.pid && (r.ticks == i.ticks || r.ticks == 0)
  }

  /** The truth of one entry about the incarnation it was created for. */
  ghost predicate RunOk(k: Table, i: Incarnation, run: Run) {
    && i in k.past && i.pid > 0 && i.ticks > 0
    && Describes(run.record, i)
    && (run.child.Some? ==> run.child.value == i.pid && run.source == Spawned && Held(k, i))
    && (run.record.exitCode.Some? ==> run.source == Spawned && run.child.None?)
    && StdinTrue(run)
  }

  /** A write handle is held exactly when the record says Open. */
  predicate StdinTrue(run: Run) {
    run.stdin <==> run.record.stdin == Some(Open)
  }

  /** The verdict of one entry is no false claim about incarnation `i`. */
  predicate Truthful(k: Table, i: Incarnation, state: RunState) {
    (state == Running ==> Present(k, i)) && (state == Exited ==> !RunningThere(k, i))
  }

  /**
   A reading that really came from the kernel gives a truthful verdict for
   every kernel and every reading exactly when the recorded start time is the
   real one.  (Without it, a process that is alive is declared exited.)
   */
  lemma ReconcileTruthfulIff(r: Record, i: Incarnation)
    requires Describes(r, i) && i.pid > 0 && i.ticks > 0
    ensures (forall k: Table, s: Stat :: Valid(k) && StatTrue(k, r.pid, s) ==>
               Truthful(k, i, Reconcile(r.ticks, r.pid, s)))
       <==> r.ticks == i.ticks
  {
    if r.ticks != i.ticks {
      var k := Fork(Table(map[], {}), i.pid, i.ticks, false);
      var s := Stat(Some(i.ticks), true);
      assert Valid(k) && StatTrue(k, r.pid, s);
      assert !Truthful(k, i, Reconcile(r.ticks, r.pid, s));
    }
  }

  /**
   One refresh, spread over time: it started at kernel `k0`, the answers were
   collected at `k`, and the caller sees the result at `k1`.  Running means the
   incarnation was in the table when the refresh began; Exited means it does
   not run when the refresh is over.
   */
  lemma RefreshTruthful(k0: Table, k: Table, k1: Table, i: Incarnation, run: Run, wait: Wait, stat: Stat)
    requires Valid(k) && Later(k0, k) && Later(k, k1)
    requires i in k0.past && RunOk(k, i, run) && run.record.ticks == i.ticks
    requires if run.child.Some? then WaitTrue(k, i.pid, wait) else StatTrue(k, i.pid, stat)
    ensures var state := RefreshRun(run, wait, stat).record.state;
            && (state == Running ==> Present(k0, i))
            && (state == Exited ==> !RunningThere(k1, i))
  {
    var state := RefreshRun(run, wait, stat).record.state;
    assert Truthful(k, i, state);
  }

  /**
   The other direction: with the start time on record a refresh finds out.  It is at a loss only
   when its look failed; otherwise it says Running of exactly the processes that are there, and of
   a held child exactly while it runs, and it keeps the code of a child that has ended.
   */
  lemma RefreshFindsOut(k: Table, i: Incarnation, run: Run, wait: Wait, stat: Stat)
    requires RunOk(k, i, run) && run.record.ticks == i.ticks
    requires if run.child.Some? then WaitTrue(k, i.pid, wait) else StatTrue(k, i.pid, stat)
    ensures var after := RefreshRun(run, wait, stat);
            && (after.record.state == Unknown <==>
                  if run.child.Some? then wait.WaitFailed? else stat.ticks.None? && stat.listed)
            && (after.record.state != Unknown ==>
                  (after.record.state == Running <==>
                     if run.child.Some? then RunningThere(k, i) else Present(k, i)))
            && (run.child.Some? && after.record.state == Exited ==>
                  wait == Done(after.record.exitCode) && after.child.None?)
            && (run.child.Some? && after.record.state != Exited ==> after.child == run.child)
  {
  }

  /** And so does the reading of a record that a restarted agent finds. */
  lemma ReloadFindsOut(k: Table, i: Incarnation, r: Record, stat: Stat)
    requires Valid(k) && Describes(r, i) && r.ticks == i.ticks && i.pid > 0 && StatTrue(k, i.pid, stat)
    ensures var state := ReloadedRun(r, stat).record.state;
            && (state == Unknown <==> stat.ticks.None? && stat.listed)
            && (state != Unknown ==> (state == Running <==> Present(k, i)))
  {
  }

  /** A held child needs no readable start time: `try_wait` alone decides. */
  lemma HeldChildTruthful(k: Table, i: Incarnation, run: Run, wait: Wait, stat: Stat)
    requires RunOk(k, i, run) && run.child.Some? && WaitTrue(k, i.pid, wait)
    ensures Truthful(k, i, RefreshRun(run, wait, stat).record.state)
    ensures wait.Done? <==> RefreshRun(run, wait, stat).record.state == Exited
  {
  }

  /**
   The identity check of `stop`, at the moment of the reading: whenever it
   decides to signal, the process under the recorded pid is the recorded
   incarnation, and its pid is not 0.
   */
  lemma StopChecksIdentity(k: Table, i: Incarnation, run: Run, expected: Option<nat>, stat: Stat)
    requires RunOk(k, i, run) && StatTrue(k, run.record.pid, stat)
    requires Valid(k) && StopCheck(run, expected, stat).Signal?
    ensures Present(k, i) && run.record.pid > 0
    ensures expected.Some? ==> expected.value == i.pid
    ensures run.child.None? ==> StopCheck(run, expected, stat).verified
  {
  }

  /**
   And it does signal.  Asked for the recorded pid or for none, with the start time on record: it
   lets the signal through to every held child, and otherwise exactly if the process is there and
   its start time could be read; it answers "gone" only when it is, and refuses only when it could
   not read a file that is there.
   */
  lemma StopReachesIff(k: Table, i: Incarnation, run: Run, expected: Option<nat>, stat: Stat)
    requires RunOk(k, i, run) && run.record.ticks == i.ticks && StatTrue(k, i.pid, stat)
    requires expected.Some? ==> expected.value == i.pid
    ensures StopCheck(run, expected, stat).Signal? <==> run.child.Some? || (Present(k, i) && stat.ticks.Some?)
    ensures StopCheck(run, expected, stat).AlreadyGone? <==> !Present(k, i) && (stat.ticks.Some? || !stat.listed)
    ensures StopCheck(run, expected, stat).Unverifiable? <==> run.child.None? && stat.ticks.None? && stat.listed
  {
  }

  /**
   What `write` tells its caller: with a held child that runs it writes exactly when the record
   says Open, and when it refuses because the child is gone, the child does not run.
   */
  lemma WriteTellsTheTruth(k: Table, i: Incarnation, run: Run, wait: Wait)
    requires RunOk(k, i, run) && (run.child.Some? ==> WaitTrue(k, i.pid, wait))
    ensures TakePipe(run, wait).Pipe? ==> run.stdin && run.record.stdin == Some(Open)
    ensures run.child.Some? && RunningThere(k, i) ==> (TakePipe(run, wait).Pipe? <==> run.record.stdin == Some(Open))
    ensures run.child.Some? && TakePipe(run, wait).Gone? ==> !RunningThere(k, i)
  {
  }
}
