/** What the invariant of `HostedRuns` means for whole runs of the provider. */
module HostedTheorems {
  import opened Wrappers
  import opened Kernel
  import opened HostedTable
  import opened HostedRuns

  lemma {:induction false} Split(w: World, es: seq<Event>, n: nat)
    requires Possible(w, es) && n <= |es|
    ensures Possible(w, es[..n]) && Possible(After(w, es[..n]), es[n..])
    ensures After(After(w, es[..n]), es[n..]) == After(w, es)
    decreases n
  {
    if n == 0 {
      assert es[..0] == [] && es[0..] == es;
    } else {
      Split(Apply(w, es[0]), es[1..], n - 1);
      assert es[..n][1..] == es[1..][..n - 1] && es[1..][n - 1..] == es[n..];
    }
  }

  // ---- signals ----

  /** Event `e` hands out `h` for incarnation `i`: it spawned it, or examined it in `/proc`. */
  predicate Issues(e: Event, h: Handle, i: Incarnation) {
    (e.StartSpawn? || e.Adopt?) && e.handle == h && Incarnation(e.pid, e.ticks) == i
  }

  predicate OneEntryEvent(e: Event) {
    e.Refresh? || e.StopBegin? || e.StopSignal? || e.StopEnd? || e.WriteTake?
  }

  lemma BornSameStopBegin(w: World, e: Event)
    requires Enabled(w, e) && e.StopBegin?
    ensures Apply(w, e).born == w.born
  {
    var check := StopCheck(w.runs[e.handle], e.expected, e.stat);
    if check.AlreadyGone? {
      assert Update(w, e.handle, check.run, StillRunning).born == w.born;
    }
  }

  lemma BornSameStopSignal(w: World, e: Event)
    requires Enabled(w, e) && e.StopSignal?
    ensures Apply(w, e).born == w.born
  {
    var h := w.stopping.handle;
    match e.result
    case NoSuchProcess =>
      var run := AfterSignal(w.runs[h], e.result, false, StillRunning);
      assert Apply(w, e)
          == Update(w, h, run, StillRunning).(stopping := Idle, disk := DropPersisted(w.disk, h, e.removed));
    case Sent =>
    case _ => assert Apply(w, e) == w.(stopping := Idle);
  }

  lemma BornSameStopEnd(w: World, e: Event)
    requires Enabled(w, e) && e.StopEnd?
    ensures Apply(w, e).born == w.born
  {
  }

  lemma BornSameOne(w: World, e: Event)
    requires Enabled(w, e) && (e.Refresh? || e.WriteTake?)
    ensures Apply(w, e).born == w.born
  {
  }

  lemma BornSameOther(w: World, e: Event)
    requires Enabled(w, e) && !OneEntryEvent(e) && !e.StartSpawn? && !e.Adopt?
    ensures Apply(w, e).born == w.born
  {
  }

  lemma BornStep(w: World, e: Event)
    requires Enabled(w, e)
    ensures w.born.Keys <= Apply(w, e).born.Keys
    ensures forall h <- w.born :: Apply(w, e).born[h] == w.born[h]
    ensures forall h <- Apply(w, e).born :: h in w.born || Issues(e, h, Apply(w, e).born[h])
  {
    if e.Refresh? || e.WriteTake? {
      BornSameOne(w, e);
    } else if e.StopBegin? {
      BornSameStopBegin(w, e);
    } else if e.StopSignal? {
      BornSameStopSignal(w, e);
    } else if e.StopEnd? {
      BornSameStopEnd(w, e);
    } else if !e.StartSpawn? && !e.Adopt? {
      BornSameOther(w, e);
    }
  }

  ghost predicate IssuedIn(es: seq<Event>, h: Handle, i: Incarnation) {
    exists e <- es :: Issues(e, h, i)
  }

  lemma {:induction false} BornIsIssued(w: World, es: seq<Event>)
    requires Possible(w, es)
    ensures forall h <- w.born :: h in After(w, es).born && After(w, es).born[h] == w.born[h]
    ensures forall h <- After(w, es).born :: h in w.born || IssuedIn(es, h, After(w, es).born[h])
    decreases |es|
  {
    if es != [] {
      var v := Apply(w, es[0]);
      var last := After(v, es[1..]).born;
      BornStep(w, es[0]);
      BornIsIssued(v, es[1..]);
      forall h <- last
        ensures h in w.born || IssuedIn(es, h, last[h])
      {
        if h !in w.born && h !in v.born {
          var e :| e in es[1..] && Issues(e, h, last[h]);
          assert e in es;
        }
      }
    }
  }

  lemma IssuedIsBorn(es: seq<Event>, e: Event, h: Handle, i: Incarnation)
    requires Possible(INITIAL, es) && e in es && Issues(e, h, i)
    ensures h in After(INITIAL, es).born && After(INITIAL, es).born[h] == i
  {
    var n :| 0 <= n < |es| && es[n] == e;
    Split(INITIAL, es, n);
    var w := After(INITIAL, es[..n]);
    assert es[n..][0] == e;
    assert Apply(w, e).born[h] == i;
    BornIsIssued(Apply(w, e), es[n..][1..]);
  }

  /**
   In every interleaving, every signal `stop` delivers goes to the process
   incarnation its handle was issued for: the spawned child, or the process
   examined by `adopt`.  Exits, reaping, pid reuse and agent restarts in
   between change nothing, and pid 0 is never signalled.
   */
  lemma SignalsHitTheirTarget(es: seq<Event>, d: Delivery)
    requires Possible(INITIAL, es) && d in After(INITIAL, es).delivered
    ensures d.target.pid > 0
    ensures exists e <- es :: Issues(e, d.handle, d.target)
    ensures forall e <- es, i: Incarnation :: Issues(e, d.handle, i) ==> i == d.target
  {
    RunKeeps(INITIAL, es);
    BornIsIssued(INITIAL, es);
    forall e <- es, i: Incarnation | Issues(e, d.handle, i)
      ensures i == d.target
    {
      IssuedIsBorn(es, e, d.handle, i);
    }
  }

  /** What the signal hits is whoever has the pid when it goes out. */
  lemma DeliveryReadsTheTable(w: World, h: Handle, removed: bool)
    requires Able(w, StopSignal(Sent, removed)) && w.stopping == Checked(h)
    requires h in w.born && w.born[h].pid == w.runs[h].record.pid
    ensures var v := Apply(w, StopSignal(Sent, removed));
            && |v.delivered| == |w.delivered| + 1 && v.delivered[|w.delivered|].handle == h
            && (v.delivered[|w.delivered|].target == w.born[h] <==> Present(w.kernel, w.born[h]))
  {
  }

  /** What can happen while `stop` holds the table lock between its check and its signal. */
  predicate Between(e: Event) {
    KernelEvent(e) || e.StartSpawn? || e.StartPersist?
  }

  /** The event gives `pid` to a new process. */
  predicate Takes(e: Event, pid: nat) {
    (e.KernelFork? || e.StartSpawn?) && e.pid == pid
  }

  /** The entry of `h` has been checked: nobody but its process has had the pid since. */
  ghost predicate AtCheck(w: World, h: Handle) {
    && Waits(w, h) && Unshared(w.kernel, w.born[h])
  }

  ghost predicate Waits(w: World, h: Handle) {
    && Valid(w.kernel) && w.stopping == Checked(h)
    && h in w.runs && h in w.born && w.born[h] in w.kernel.past && w.runs[h].record.pid == w.born[h].pid
  }

  /** Every state a run reaches between a check and its signal is such a state. */
  lemma CheckedIsAtCheck(w: World, h: Handle)
    requires Inv(w) && w.stopping == Checked(h)
    ensures AtCheck(w, h)
  {
    assert RunOk(w.kernel, w.born[h], w.runs[h]);
  }

  /** One event in between: a taker drives the process out, and nothing brings it back. */
  lemma BetweenStep(w: World, e: Event, h: Handle)
    requires Waits(w, h) && Able(w, e) && Between(e)
    ensures var v, i := Apply(w, e), w.born[h];
            && Waits(v, h) && v.born[h] == i && v.delivered == w.delivered
            && (Unshared(w.kernel, i) && !Takes(e, i.pid) ==> Unshared(v.kernel, i))
            && (Takes(e, i.pid) ==> !Present(v.kernel, i))
            && (!Present(w.kernel, i) ==> !Present(v.kernel, i))
  {
  }

  ghost predicate Taken(es: seq<Event>, pid: nat) {
    exists e <- es :: Takes(e, pid)
  }

  lemma {:induction false} Gone(w: World, es: seq<Event>, h: Handle)
    requires Waits(w, h) && Loosely(w, es) && (forall e <- es :: Between(e)) && !Present(w.kernel, w.born[h])
    ensures var v := LooselyAfter(w, es);
            Waits(v, h) && v.born[h] == w.born[h] && v.delivered == w.delivered && !Present(v.kernel, w.born[h])
    decreases |es|
  {
    if es != [] {
      assert es[0] in es;
      BetweenStep(w, es[0], h);
      Gone(Apply(w, es[0]), es[1..], h);
    }
  }

  lemma {:induction false} InBetween(w: World, es: seq<Event>, h: Handle)
    requires AtCheck(w, h) && Loosely(w, es) && forall e <- es :: Between(e)
    ensures var v, i := LooselyAfter(w, es), w.born[h];
            && Waits(v, h) && v.born[h] == i && v.delivered == w.delivered
            && (if Taken(es, i.pid) then !Present(v.kernel, i) else Unshared(v.kernel, i))
    decreases |es|
  {
    if es != [] {
      var e, rest, pid := es[0], es[1..], w.born[h].pid;
      assert e in es;
      BetweenStep(w, e, h);
      if Takes(e, pid) {
        Gone(Apply(w, e), rest, h);
      } else {
        InBetween(Apply(w, e), rest, h);
        assert Taken(es, pid) <==> Taken(rest, pid) by {
          assert es == [e] + rest;
        }
      }
    }
  }

  /**
   Exactly when the signal of `stop` goes to the process that was checked, for everything that can
   happen after the check: when no fork and no spawn in between is given its pid.  This is the
   promise of `Undisturbed`, so nothing weaker will do.
   */
  lemma DeliveryIsRightIff(w: World, h: Handle, es: seq<Event>, removed: bool)
    requires AtCheck(w, h) && Loosely(w, es) && forall e <- es :: Between(e)
    requires Able(LooselyAfter(w, es), StopSignal(Sent, removed))
    ensures var v := Apply(LooselyAfter(w, es), StopSignal(Sent, removed));
            && |v.delivered| == |w.delivered| + 1 && v.delivered[|w.delivered|].handle == h
            && (v.delivered[|w.delivered|].target == w.born[h] <==> forall e <- es :: !Takes(e, w.born[h].pid))
  {
    InBetween(w, es, h);
    DeliveryReadsTheTable(LooselyAfter(w, es), h, removed);
  }

  lemma LooseCons(w: World, e: Event, rest: seq<Event>)
    requires Able(w, e) && Loosely(Apply(w, e), rest)
    ensures Loosely(w, [e] + rest) && LooselyAfter(w, [e] + rest) == LooselyAfter(Apply(w, e), rest)
  {
    assert ([e] + rest)[1..] == rest;
  }

  /** A process was adopted and has been checked. */
  function CheckedOnce(): World {
    World(Table(map[7 := Process(1, false, false)], {Incarnation(7, 1)}), true, map[],
          map["a" := AdoptedRun(7, 1)], map[],
          Checked("a"), map[], map[], map["a" := Incarnation(7, 1)], [])
  }

  function CheckingOnce(rest: seq<Event>): seq<Event> {
    [LoadEnd] + ([KernelFork(7, 1)] + ([Adopt("a", 7, 1, Unchanged, {})] +
                 ([StopBegin("a", None, Stat(Some(1), true), true)] + rest)))
  }

  lemma ChecksOnce(rest: seq<Event>)
    requires Loosely(CheckedOnce(), rest)
    ensures Loosely(INITIAL, CheckingOnce(rest))
    ensures LooselyAfter(INITIAL, CheckingOnce(rest)) == LooselyAfter(CheckedOnce(), rest)
  {
    var fork, adopt := KernelFork(7, 1), Adopt("a", 7, 1, Unchanged, {});
    var check := StopBegin("a", None, Stat(Some(1), true), true);
    var w3 := CheckedOnce().(stopping := Idle);
    assert Apply(w3, check) == CheckedOnce();
    var w2 := w3.(runs := map[], born := map[]);
    assert Apply(w2, adopt) == w3;
    var w1 := INITIAL.(loaded := true);
    assert Apply(INITIAL, LoadEnd) == w1;
    assert Apply(w1, fork) == w2;
    LooseCons(w3, check, rest);
    LooseCons(w2, adopt, [check] + rest);
    LooseCons(w1, fork, [adopt] + ([check] + rest));
    LooseCons(INITIAL, LoadEnd, [fork] + ([adopt] + ([check] + rest)));
  }

  /** It exits, is reaped, its pid is given away, and the signal goes out. */
  function ReusingThePid(): seq<Event> {
    [KernelExit(7)] + ([KernelReap(7)] + ([KernelFork(7, 2)] + ([StopSignal(Sent, true)] + [])))
  }

  lemma ReusesThePid()
    ensures Loosely(CheckedOnce(), ReusingThePid())
    ensures LooselyAfter(CheckedOnce(), ReusingThePid()).delivered == [Delivery("a", Incarnation(7, 2))]
  {
    var exit, reap, fork, signal := KernelExit(7), KernelReap(7), KernelFork(7, 2), StopSignal(Sent, true);
    var w1 := Apply(CheckedOnce(), exit);
    var w2 := Apply(w1, reap);
    var w3 := Apply(w2, fork);
    assert w3.kernel.procs == map[7 := Process(2, false, false)];
    LooseCons(w3, signal, []);
    LooseCons(w2, fork, [signal] + []);
    LooseCons(w1, reap, [fork] + ([signal] + []));
    LooseCons(CheckedOnce(), exit, [reap] + ([fork] + ([signal] + [])));
  }

  /**
   The atomicity assumed by `Undisturbed` cannot be dropped.  A process is
   adopted and checked; it exits, is reaped, and its pid is given away; then the
   signal hits a process that no event of the run handed out.
   */
  lemma AtomicityIsNeeded()
    ensures exists es: seq<Event>, d: Delivery ::
              && Loosely(INITIAL, es) && d in LooselyAfter(INITIAL, es).delivered
              && forall e <- es :: !Issues(e, d.handle, d.target)
  {
    var es, d := CheckingOnce(ReusingThePid()), Delivery("a", Incarnation(7, 2));
    ReusesThePid();
    ChecksOnce(ReusingThePid());
    assert d in LooselyAfter(INITIAL, es).delivered;
    NobodyIssued();
  }

  lemma NobodyIssued()
    ensures forall e <- CheckingOnce(ReusingThePid()) :: !Issues(e, "a", Incarnation(7, 2))
  {
  }

  // ---- input channels ----

  /** `h` has been handed out and its channel, if it is known at all, is not open. */
  predicate Shut(w: World, h: Handle) {
    && h in w.born && h !in w.starting
    && (h in w.runs ==> w.runs[h].record.stdin != Some(Open))
    && (h in w.loading ==> w.loading[h].record.stdin != Some(Open))
  }

  /** Rewriting an entry without opening its channel. */
  lemma ShutUpdate(w: World, g: Handle, run: Run, wait: Wait, h: Handle)
    requires Shut(w, h) && g in w.runs && run.record.stdin == w.runs[g].record.stdin
    ensures Shut(Update(w, g, run, wait), h)
  {
  }

  lemma ShutStepOne(w: World, e: Event, h: Handle)
    requires Enabled(w, e) && Shut(w, h) && (e.Refresh? || e.WriteTake?)
    ensures Shut(Apply(w, e), h)
  {
    match e
    case Refresh(g, wait, stat) => ShutUpdate(w, g, RefreshRun(w.runs[g], wait, stat), wait, h);
    case WriteTake(_, g, wait, _) =>
      var take := TakePipe(w.runs[g], wait);
      if take.Gone? { ShutUpdate(w, g, take.run, wait, h); }
  }

  lemma ShutStepBegin(w: World, e: Event, h: Handle)
    requires Enabled(w, e) && Shut(w, h) && e.StopBegin?
    ensures Shut(Apply(w, e), h)
  {
    var check := StopCheck(w.runs[e.handle], e.expected, e.stat);
    if check.AlreadyGone? { ShutUpdate(w, e.handle, check.run, StillRunning, h); }
  }

  lemma ShutStepStop(w: World, e: Event, h: Handle)
    requires Enabled(w, e) && Shut(w, h) && (e.StopSignal? || e.StopEnd?)
    ensures Shut(Apply(w, e), h)
  {
    var g := w.stopping.handle;
    match e
    case StopSignal(_, _) =>
      ShutUpdate(w, g, AfterSignal(w.runs[g], NoSuchProcess, false, StillRunning), StillRunning, h);
    case StopEnd(wait, _) =>
      ShutUpdate(w, g, AfterSignal(w.runs[g], Sent, w.stopping.dead, wait), wait, h);
  }

  lemma ShutStepWrite(w: World, e: Event, h: Handle)
    requires Enabled(w, e) && Shut(w, h) && (e.WriteDone? || e.WriteBroken?)
    ensures Shut(Apply(w, e), h)
  {
  }

  lemma ShutStepOther(w: World, e: Event, h: Handle)
    requires Enabled(w, e) && Shut(w, h) && !OneEntryEvent(e) && !e.WriteDone? && !e.WriteBroken?
    ensures Shut(Apply(w, e), h)
  {
  }

  lemma ShutStep(w: World, e: Event, h: Handle)
    requires Enabled(w, e) && Shut(w, h)
    ensures Shut(Apply(w, e), h)
  {
    if e.Refresh? || e.WriteTake? {
      ShutStepOne(w, e, h);
    } else if e.StopBegin? {
      ShutStepBegin(w, e, h);
    } else if e.StopSignal? || e.StopEnd? {
      ShutStepStop(w, e, h);
    } else if e.WriteDone? || e.WriteBroken? {
      ShutStepWrite(w, e, h);
    } else {
      ShutStepOther(w, e, h);
    }
  }

  lemma {:induction false} ShutForever(w: World, es: seq<Event>, h: Handle)
    requires Possible(w, es) && Shut(w, h)
    ensures Shut(After(w, es), h)
    decreases |es|
  {
    if es != [] {
      ShutStep(w, es[0], h);
      ShutForever(Apply(w, es[0]), es[1..], h);
    }
  }

  /**
   The input channel in all runs, with the two sections of `write` interleaved
   against other writes, closes and restarts: a write handle is held exactly
   when the record says Open, and once a record has said anything else, it
   never says Open again, also after any number of restarts.
   */
  lemma StdinIsTruthful(es: seq<Event>, n: nat, h: Handle)
    requires Possible(INITIAL, es) && n <= |es|
    ensures Possible(INITIAL, es[..n])
    ensures var v, w := After(INITIAL, es[..n]), After(INITIAL, es);
            && (h in w.runs ==> StdinTrue(w.runs[h]))
            && (h in v.runs && h in w.runs && v.runs[h].record.stdin != Some(Open) ==>
                  w.runs[h].record.stdin != Some(Open))
  {
    Split(INITIAL, es, n);
    RunKeeps(INITIAL, es);
    RunKeeps(INITIAL, es[..n]);
    var v, w := After(INITIAL, es[..n]), After(INITIAL, es);
    if h in w.runs {
      assert RunOk(w.kernel, w.born[h], w.runs[h]);
    }
    if h in v.runs && v.runs[h].record.stdin != Some(Open) {
      ShutForever(v, es[n..], h);
    }
  }

  /** No channel survives the agent: after a restart nothing known before is open. */
  lemma NothingOpenAfterRestart(es: seq<Event>, n: nat, h: Handle)
    requires Possible(INITIAL, es) && n < |es| && es[n] == Crash
    requires Possible(INITIAL, es[..n]) && h in After(INITIAL, es[..n]).born
    ensures h in After(INITIAL, es).runs ==> After(INITIAL, es).runs[h].record.stdin != Some(Open)
  {
    Split(INITIAL, es, n);
    var w := After(INITIAL, es[..n]);
    assert es[n..][0] == Crash;
    assert Shut(Apply(w, Crash), h);
    ShutForever(Apply(w, Crash), es[n..][1..], h);
  }

  // ---- verdicts ----

  /** In every reachable state a held child is a spawned one, and so is every known exit code. */
  lemma ChildrenAndExitCodes(es: seq<Event>, h: Handle)
    requires Possible(INITIAL, es) && h in After(INITIAL, es).runs
    ensures var w := After(INITIAL, es); var run := w.runs[h];
            && (run.child.Some? ==> run.source == Spawned && run.child.value == run.record.pid)
            && (run.record.exitCode.Some? ==> run.source == Spawned && run.child.None?)
            && (run.child.Some? ==> run.record.pid in w.kernel.procs)
  {
    RunKeeps(INITIAL, es);
    var w := After(INITIAL, es);
    assert RunOk(w.kernel, w.born[h], w.runs[h]);
  }

  predicate MovesKernel(e: Event) {
    KernelEvent(e) || e.StartSpawn? || e.Crash?
  }

  lemma KernelStepLater(w: World, e: Event)
    requires Valid(w.kernel) && Enabled(w, e) && MovesKernel(e)
    ensures Later(w.kernel, Apply(w, e).kernel)
  {
    match e
    case KernelFork(pid, ticks) => ForkLater(w.kernel, pid, ticks, false);
    case StartSpawn(_, pid, ticks, _, _, _, _) => ForkLater(w.kernel, pid, ticks, true);
    case KernelExit(pid) => MovesLater(w.kernel, pid, StillRunning);
    case KernelReap(pid) => MovesLater(w.kernel, pid, StillRunning);
    case Crash => MovesLater(w.kernel, 0, StillRunning);
  }

  lemma EntryStepLater(w: World, e: Event)
    requires Enabled(w, e) && OneEntryEvent(e)
    ensures Later(w.kernel, Apply(w, e).kernel)
  {
    match e
    case Refresh(h, wait, _) => UpdateLater(w, h, RefreshRun(w.runs[h], wait, e.stat), wait);
    case WriteTake(_, h, wait, _) =>
      if TakePipe(w.runs[h], wait).Gone? {
        UpdateLater(w, h, TakePipe(w.runs[h], wait).run, wait);
      }
    case StopBegin(h, expected, stat, _) =>
      var check := StopCheck(w.runs[h], expected, stat);
      if check.AlreadyGone? { UpdateLater(w, h, check.run, StillRunning); }
    case StopSignal(result, _) =>
      var h := w.stopping.handle;
      UpdateLater(w, h, AfterSignal(w.runs[h], NoSuchProcess, false, StillRunning), StillRunning);
    case StopEnd(wait, _) =>
      var h := w.stopping.handle;
      UpdateLater(w, h, AfterSignal(w.runs[h], Sent, w.stopping.dead, wait), wait);
  }

  lemma KernelSame(w: World, e: Event)
    requires Enabled(w, e) && !MovesKernel(e) && !OneEntryEvent(e)
    ensures Apply(w, e).kernel == w.kernel
  {
  }

  /** No section of the agent and no kernel move turns time back. */
  lemma StepLater(w: World, e: Event)
    requires Inv(w) && Enabled(w, e)
    ensures Later(w.kernel, Apply(w, e).kernel)
  {
    if MovesKernel(e) {
      KernelStepLater(w, e);
    } else if OneEntryEvent(e) {
      EntryStepLater(w, e);
    } else {
      KernelSame(w, e);
    }
  }

  lemma UpdateLater(w: World, h: Handle, run: Run, wait: Wait)
    requires h in w.runs
    ensures Later(w.kernel, Update(w, h, run, wait).kernel)
  {
    if w.runs[h].child.Some? { MovesLater(w.kernel, w.runs[h].child.value, wait); }
  }
}
