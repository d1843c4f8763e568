/**
 What the verdicts of the provider are worth: Running and Exited after a
 refresh, after a reload, and after `stop`.
 */
module HostedVerdicts {
  import opened Wrappers
  import opened Kernel
  import opened HostedTable
  import opened HostedRuns
  import opened HostedTheorems

  /** What the caller of a refresh may conclude about `h`, whose refresh began at `k0`. */
  ghost predicate VerdictOk(k0: Table, w: World, h: Handle) {
    h in w.runs && h in w.born && w.runs[h].record.ticks == w.born[h].ticks ==>
      && (w.runs[h].record.state == Running ==> Present(k0, w.born[h]))
      && (w.runs[h].record.state == Exited ==> !RunningThere(w.kernel, w.born[h]))
  }

  /** What can happen while a refresh holds the table lock; another `start` may be spawning and saving. */
  predicate RefreshEvent(e: Event) {
    e.Refresh? || KernelEvent(e) || e.StartSpawn? || e.StartPersist?
  }

  function RefreshedBy(e: Event): set<Handle> {
    if e.Refresh? then {e.handle} else {}
  }

  function Refreshed(es: seq<Event>): set<Handle> {
    if es == [] then {} else RefreshedBy(es[0]) + Refreshed(es[1..])
  }

  /** Nothing in the table is younger than `k0`. */
  ghost predicate Known(k0: Table, w: World) {
    Later(k0, w.kernel) && forall g <- w.runs :: g in w.born && w.born[g] in k0.past
  }

  lemma RefreshStep(k0: Table, w: World, e: Event, h: Handle)
    requires Inv(w) && Enabled(w, e) && RefreshEvent(e)
    requires Known(k0, w)
    requires VerdictOk(k0, w, h) || (e.Refresh? && e.handle == h)
    ensures VerdictOk(k0, Apply(w, e), h)
  {
    var v := Apply(w, e);
    StepLater(w, e);
    if e.Refresh? && e.handle == h {
      assert RunOk(w.kernel, w.born[h], w.runs[h]);
      if w.runs[h].record.ticks == w.born[h].ticks {
        RefreshTruthful(k0, w.kernel, v.kernel, w.born[h], w.runs[h], e.wait, e.stat);
      }
    }
  }

  ghost predicate AllOk(k0: Table, w: World, hs: set<Handle>) {
    forall h <- hs :: VerdictOk(k0, w, h)
  }

  lemma KnownStep(k0: Table, w: World, e: Event)
    requires Inv(w) && Enabled(w, e) && RefreshEvent(e) && Known(k0, w)
    ensures Known(k0, Apply(w, e))
  {
    StepLater(w, e);
    LaterTransitive(k0, w.kernel, Apply(w, e).kernel);
  }

  lemma RefreshPassStep(k0: Table, w: World, e: Event, done: set<Handle>)
    requires Inv(w) && Enabled(w, e) && RefreshEvent(e) && Known(k0, w) && AllOk(k0, w, done)
    ensures Inv(Apply(w, e)) && Known(k0, Apply(w, e)) && AllOk(k0, Apply(w, e), done + RefreshedBy(e))
  {
    StepKeeps(w, e);
    KnownStep(k0, w, e);
    forall h <- done + RefreshedBy(e)
      ensures VerdictOk(k0, Apply(w, e), h)
    {
      RefreshStep(k0, w, e, h);
    }
  }

  lemma {:induction false} RefreshPass(k0: Table, w: World, es: seq<Event>, done: set<Handle>)
    requires Inv(w) && Possible(w, es) && (forall e <- es :: RefreshEvent(e))
    requires Known(k0, w) && AllOk(k0, w, done)
    ensures AllOk(k0, After(w, es), done + Refreshed(es))
    decreases |es|
  {
    if es == [] {
      assert done + Refreshed(es) == done;
    } else {
      var e, rest := es[0], es[1..];
      assert e in es;
      RefreshPassStep(k0, w, e, done);
      var v := Apply(w, e);
      RefreshPass(k0, v, rest, done + RefreshedBy(e));
      assert done + Refreshed(es) == (done + RefreshedBy(e)) + Refreshed(rest);
    }
  }

  /**
   A refresh of any set of entries, while the kernel keeps moving: for every
   refreshed record whose start time was readable, Running means its process
   was in the process table when the refresh began, and Exited means it does
   not run when the refresh is over.
   */
  lemma RefreshTellsTheTruth(before: seq<Event>, es: seq<Event>, h: Handle)
    requires Possible(INITIAL, before) && Possible(After(INITIAL, before), es)
    requires (forall e <- es :: RefreshEvent(e)) && h in Refreshed(es)
    ensures VerdictOk(After(INITIAL, before).kernel, After(After(INITIAL, before), es), h)
  {
    var w := After(INITIAL, before);
    RunKeeps(INITIAL, before);
    RefreshPass(w.kernel, w, es, {});
  }

  /** With this event a refresh looks at `h` and learns nothing. */
  predicate FailedLook(w: World, e: Event, h: Handle) {
    && e.Refresh? && e.handle == h && h in w.runs
    && if w.runs[h].child.Some? then e.wait.WaitFailed? else e.stat.ticks.None? && e.stat.listed
  }

  predicate AllLooksWork(w: World, es: seq<Event>, h: Handle)
    requires Possible(w, es)
    decreases |es|
  {
    es == [] || (!FailedLook(w, es[0], h) && AllLooksWork(Apply(w, es[0]), es[1..], h))
  }

  predicate FoundOut(runs: Runs, h: Handle) {
    h in runs && runs[h].record.state != Unknown
  }

  /** A refresh rewrites its own entry only. */
  lemma RefreshEffect(w: World, e: Event)
    requires Able(w, e) && RefreshEvent(e)
    ensures Apply(w, e).runs == if e.Refresh? then w.runs[e.handle := RefreshRun(w.runs[e.handle], e.wait, e.stat)]
                                else w.runs
  {
  }

  lemma FoundOutStep(w: World, e: Event, h: Handle)
    requires EntriesOk(w.kernel, w.born, w.runs) && Able(w, e) && RefreshEvent(e) && !FailedLook(w, e, h)
    requires FoundOut(w.runs, h) || h in RefreshedBy(e)
    ensures FoundOut(Apply(w, e).runs, h)
  {
    RefreshEffect(w, e);
    if h in RefreshedBy(e) {
      assert RunOk(w.kernel, w.born[h], w.runs[h]);
    }
  }

  lemma {:induction false} FoundOutPass(w: World, es: seq<Event>, h: Handle)
    requires Inv(w) && Possible(w, es) && (forall e <- es :: RefreshEvent(e)) && AllLooksWork(w, es, h)
    requires FoundOut(w.runs, h) || h in Refreshed(es)
    ensures FoundOut(After(w, es).runs, h)
    decreases |es|
  {
    if es != [] {
      assert es[0] in es;
      StepKeeps(w, es[0]);
      if FoundOut(w.runs, h) || h in RefreshedBy(es[0]) {
        FoundOutStep(w, es[0], h);
      }
      FoundOutPass(Apply(w, es[0]), es[1..], h);
    }
  }

  /**
   And it finds out: if no look at the entry failed, and its start time is on record, a process that
   runs when the refresh is over is said to be Running, and one that was not even in the process
   table when it began is said to have Exited.
   */
  lemma RefreshFindsTheLiving(before: seq<Event>, es: seq<Event>, h: Handle)
    requires Possible(INITIAL, before) && Possible(After(INITIAL, before), es)
    requires (forall e <- es :: RefreshEvent(e)) && h in Refreshed(es)
    requires AllLooksWork(After(INITIAL, before), es, h)
    ensures var w := After(INITIAL, before); var v := After(w, es);
            && h in v.runs && h in v.born
            && (v.runs[h].record.ticks == v.born[h].ticks ==>
                  && (RunningThere(v.kernel, v.born[h]) ==> v.runs[h].record.state == Running)
                  && (!Present(w.kernel, v.born[h]) ==> v.runs[h].record.state == Exited))
  {
    var w := After(INITIAL, before);
    RunKeeps(INITIAL, before);
    RunKeeps(w, es);
    FoundOutPass(w, es, h);
    RefreshTellsTheTruth(before, es, h);
  }

  // ---- reading the records back ----

  /** The verdict on one entry, for a caller that began at `k0`. */
  ghost predicate VerdictOn(k0: Table, k: Table, i: Incarnation, run: Run) {
    run.record.ticks == i.ticks ==>
      (run.record.state == Running ==> Present(k0, i)) && (run.record.state == Exited ==> !RunningThere(k, i))
  }

  predicate LoadEvent(e: Event) {
    e.LoadOne? || KernelEvent(e)
  }

  /** Everything read back so far is judged rightly about the time since `k0`. */
  ghost predicate LoadedRight(k0: Table, w: World) {
    && Later(k0, w.kernel)
    && (forall h <- w.born :: w.born[h] in k0.past)
    && (forall h <- w.loading :: h in w.born && VerdictOn(k0, w.kernel, w.born[h], w.loading[h]))
  }

  /** One reading at `k` gives a verdict that is right about `k0` before it and about every `l` after it. */
  lemma ReadingIsRight(k0: Table, k: Table, i: Incarnation, r: Record, stat: Stat)
    requires Valid(k) && Later(k0, k) && i in k0.past && Describes(r, i) && i.pid > 0
    requires StatTrue(k, r.pid, stat)
    ensures VerdictOn(k0, k, i, ReloadedRun(r, stat))
  {
  }

  lemma LoadStep(k0: Table, w: World, e: Event)
    requires Inv(w) && Enabled(w, e) && LoadEvent(e) && LoadedRight(k0, w)
    ensures LoadedRight(k0, Apply(w, e))
  {
    var v := Apply(w, e);
    StepLater(w, e);
    LaterTransitive(k0, w.kernel, v.kernel);
    if e.LoadOne? {
      ReadingIsRight(k0, w.kernel, w.born[e.handle], w.disk[e.handle], e.stat);
    }
    forall h <- v.loading
      ensures h in v.born && VerdictOn(k0, v.kernel, v.born[h], v.loading[h])
    {
      assert v.born == w.born;
    }
  }

  lemma {:induction false} LoadPass(k0: Table, w: World, es: seq<Event>)
    requires Inv(w) && Possible(w, es) && (forall e <- es :: LoadEvent(e)) && LoadedRight(k0, w)
    ensures Inv(After(w, es)) && LoadedRight(k0, After(w, es))
    decreases |es|
  {
    if es != [] {
      assert es[0] in es;
      StepKeeps(w, es[0]);
      LoadStep(k0, w, es[0]);
      LoadPass(k0, Apply(w, es[0]), es[1..]);
    }
  }

  /**
   A restarted agent reads its records back one by one, while the kernel keeps
   moving: for every record whose start time was readable, Running means its
   process was in the process table when the loading began, and Exited means it
   does not run when the loading is over.
   */
  lemma ReloadTellsTheTruth(before: seq<Event>, es: seq<Event>, h: Handle)
    requires Possible(INITIAL, before) && After(INITIAL, before).loading == map[]
    requires var w := After(INITIAL, before);
             Possible(w, es) && (forall e <- es :: LoadEvent(e)) && Enabled(After(w, es), LoadEnd)
    requires h in Apply(After(After(INITIAL, before), es), LoadEnd).runs
    ensures var w := After(INITIAL, before); var v := Apply(After(w, es), LoadEnd);
            VerdictOk(w.kernel, v, h) && v.runs[h].child.None? && v.runs[h].record.exitCode.None?
  {
    var w := After(INITIAL, before);
    RunKeeps(INITIAL, before);
    LoadPass(w.kernel, w, es);
  }

  /** A reading of the record of `h` that learns nothing about its process. */
  predicate FailedReading(e: Event, h: Handle) {
    e.LoadOne? && e.handle == h && e.stat.ticks.None? && e.stat.listed
  }

  lemma LoadFindsOutStep(w: World, e: Event, h: Handle)
    requires BornOk(w.kernel, w.born) && DiskOk(w.born, w.disk) && Able(w, e) && LoadEvent(e) && !FailedReading(e, h)
    requires h in w.loading ==> FoundOut(w.loading, h)
    ensures h in Apply(w, e).loading ==> FoundOut(Apply(w, e).loading, h)
  {
    if e.LoadOne? && e.handle == h {
      assert w.disk[h].pid == w.born[h].pid;
    }
  }

  lemma {:induction false} LoadFindsOut(w: World, es: seq<Event>, h: Handle)
    requires Inv(w) && Possible(w, es) && forall e <- es :: LoadEvent(e) && !FailedReading(e, h)
    requires h in w.loading ==> FoundOut(w.loading, h)
    ensures h in After(w, es).loading ==> FoundOut(After(w, es).loading, h)
    decreases |es|
  {
    if es != [] {
      assert es[0] in es;
      StepKeeps(w, es[0]);
      LoadFindsOutStep(w, es[0], h);
      LoadFindsOut(Apply(w, es[0]), es[1..], h);
    }
  }

  /**
   And it finds the living: a process that runs when the loading is over is said to be Running, and
   one that was gone when it began to have Exited, unless the reading of its files failed.
   */
  lemma ReloadFindsTheLiving(before: seq<Event>, es: seq<Event>, h: Handle)
    requires Possible(INITIAL, before) && After(INITIAL, before).loading == map[]
    requires var w := After(INITIAL, before);
             && Possible(w, es) && (forall e <- es :: LoadEvent(e) && !FailedReading(e, h))
             && Enabled(After(w, es), LoadEnd)
    requires h in Apply(After(After(INITIAL, before), es), LoadEnd).runs
    ensures var w := After(INITIAL, before); var v := Apply(After(w, es), LoadEnd);
            && h in v.born
            && (v.runs[h].record.ticks == v.born[h].ticks ==>
                  && (RunningThere(v.kernel, v.born[h]) ==> v.runs[h].record.state == Running)
                  && (!Present(w.kernel, v.born[h]) ==> v.runs[h].record.state == Exited))
  {
    var w := After(INITIAL, before);
    RunKeeps(INITIAL, before);
    RunKeeps(w, es);
    LoadFindsOut(w, es, h);
    ReloadTellsTheTruth(before, es, h);
  }

  // ---- the verdict of stop, and Exited at any time ----

  predicate OnRecord(run: Run, i: Incarnation) {
    run.record.ticks == i.ticks
  }

  /** `stop` looks for the end of a process that runs, and cannot read its file. */
  predicate BlindPoll(w: World, e: Event, h: Handle) {
    && e.StopPoll? && e.poll.None? && w.stopping == Signalled(h, false)
    && h in w.born && RunningThere(w.kernel, w.born[h])
  }

  /** With this event `stop` concludes that the process of `h` is gone. */
  predicate Concludes(w: World, e: Event, h: Handle) {
    match e
    case StopBegin(g, expected, stat, _) => g == h && h in w.runs && StopCheck(w.runs[h], expected, stat).AlreadyGone?
    case StopSignal(result, _) => w.stopping == Checked(h) && result == NoSuchProcess
    case StopPoll(poll) => w.stopping == Signalled(h, false) && SaysDead(poll)
    case _ => false
  }

  /** With the start time on record the conclusion is false exactly after a look that failed on a running process. */
  lemma ConclusionIff(w: World, e: Event, h: Handle)
    requires Inv(w) && Enabled(w, e) && Concludes(w, e, h) && h in w.runs && OnRecord(w.runs[h], w.born[h])
    ensures RunningThere(w.kernel, w.born[h]) <==> BlindPoll(w, e, h)
  {
    assert RunOk(w.kernel, w.born[h], w.runs[h]);
    if e.StopPoll? && e.poll.Some? {
      PollVerdictIff(w.born[h], e.poll);
    }
  }

  /** A world with one process and one entry for it. */
  function OneEntry(run: Run, i: Incarnation): World {
    var k := Table(map[i.pid := Process(i.ticks, false, run.child.Some?)], {i});
    World(k, true, map[], map["h" := run], map[], Idle, map[], map[], map["h" := i], [])
  }

  /**
   For all of `stop`, in every state of the machine that has this entry: its
   conclusion that the process is gone is false only for a look that failed on a
   running process.  That is so exactly when the start time is on record.
   */
  lemma StopVerdictIff(k: Table, run: Run, i: Incarnation)
    requires RunOk(k, i, run)
    ensures (forall w: World, e: Event, h: Handle ::
               Inv(w) && Enabled(w, e) && h in w.runs && w.runs[h] == run && w.born[h] == i && Concludes(w, e, h) ==>
                 (RunningThere(w.kernel, i) <==> BlindPoll(w, e, h)))
       <==> OnRecord(run, i)
  {
    if OnRecord(run, i) {
      forall w: World, e: Event, h: Handle | Inv(w) && Enabled(w, e) && h in w.runs && w.runs[h] == run
                                             && w.born[h] == i && Concludes(w, e, h)
        ensures RunningThere(w.kernel, i) <==> BlindPoll(w, e, h)
      {
        ConclusionIff(w, e, h);
      }
    } else {
      var w := OneEntry(run, i);
      var e := StopBegin("h", None, Stat(Some(i.ticks), true), true);
      assert RunOk(w.kernel, i, run);
      assert Inv(w);
      assert Enabled(w, e) && Concludes(w, e, "h") && RunningThere(w.kernel, i) && !BlindPoll(w, e, "h");
    }
  }

  /** Exited is no false claim about `h`, wherever it is written. */
  predicate ExitTrue(k: Table, i: Incarnation, run: Run) {
    OnRecord(run, i) && run.record.state == Exited ==> !RunningThere(k, i)
  }

  predicate ExitsTrue(w: World, h: Handle) {
    h in w.born ==>
      && (h in w.runs ==> ExitTrue(w.kernel, w.born[h], w.runs[h]))
      && (h in w.starting ==> ExitTrue(w.kernel, w.born[h], w.starting[h]))
      && (h in w.loading ==> ExitTrue(w.kernel, w.born[h], w.loading[h]))
      && (w.stopping == Signalled(h, true) && h in w.runs && OnRecord(w.runs[h], w.born[h]) ==>
            !RunningThere(w.kernel, w.born[h]))
  }

  /** An entry is rewritten; what it says of its process stays true as the kernel moves on. */
  lemma ExitUpdate(w: World, g: Handle, run: Run, wait: Wait, h: Handle)
    requires BornOk(w.kernel, w.born) && g in w.runs && ExitsTrue(w, h)
    requires g == h && h in w.born ==> run.record.ticks == w.runs[h].record.ticks && ExitTrue(w.kernel, w.born[h], run)
    requires w.stopping.Signalled? ==> w.stopping.handle == g
    ensures ExitsTrue(Update(w, g, run, wait).(stopping := Idle), h)
  {
    UpdateLater(w, g, run, wait);
  }

  lemma ExitFrame(w: World, v: World, h: Handle)
    requires ExitsTrue(w, h) && v.kernel == w.kernel && v.born == w.born && v.runs == w.runs
    requires v.starting == w.starting && v.loading == w.loading
    requires v.stopping == w.stopping || !(v.stopping.Signalled? && v.stopping.dead)
    ensures ExitsTrue(v, h)
  {
  }

  lemma ExitSettled(w: World, g: Handle, run: Run, wait: Wait, removed: bool, h: Handle)
    requires BornOk(w.kernel, w.born) && g in w.runs && ExitsTrue(w, h)
    requires g == h && h in w.born ==>
               run.record.ticks == w.runs[h].record.ticks && ExitTrue(w.kernel, w.born[h], run)
    requires w.stopping.Signalled? ==> w.stopping.handle == g
    ensures ExitsTrue(Settled(w, g, run, wait, removed), h)
  {
    ExitUpdate(w, g, run, wait, h);
    ExitFrame(Update(w, g, run, wait).(stopping := Idle), Settled(w, g, run, wait, removed), h);
  }

  lemma ExitStepBeginGone(w: World, e: Event, h: Handle)
    requires Inv(w) && Enabled(w, e) && ExitsTrue(w, h) && e.StopBegin?
    requires StopCheck(w.runs[e.handle], e.expected, e.stat).AlreadyGone?
    ensures ExitsTrue(Apply(w, e), h)
  {
    var check := StopCheck(w.runs[e.handle], e.expected, e.stat);
    if e.handle == h && OnRecord(w.runs[h], w.born[h]) {
      ConclusionIff(w, e, h);
    }
    ExitSettled(w, e.handle, check.run, StillRunning, e.removed, h);
    assert Apply(w, e) == Settled(w, e.handle, check.run, StillRunning, e.removed);
  }

  lemma ExitStepBegin(w: World, e: Event, h: Handle)
    requires Inv(w) && Enabled(w, e) && ExitsTrue(w, h) && e.StopBegin?
    ensures ExitsTrue(Apply(w, e), h)
  {
    if StopCheck(w.runs[e.handle], e.expected, e.stat).AlreadyGone? {
      ExitStepBeginGone(w, e, h);
    } else {
      ExitFrame(w, Apply(w, e), h);
    }
  }

  lemma ExitStepNoProcess(w: World, removed: bool, h: Handle)
    requires Inv(w) && Enabled(w, StopSignal(NoSuchProcess, removed)) && ExitsTrue(w, h)
    ensures ExitsTrue(Apply(w, StopSignal(NoSuchProcess, removed)), h)
  {
    var e, g := StopSignal(NoSuchProcess, removed), w.stopping.handle;
    if g == h && OnRecord(w.runs[h], w.born[h]) {
      ConclusionIff(w, e, h);
    }
    var run := AfterSignal(w.runs[g], NoSuchProcess, false, StillRunning);
    ExitSettled(w, g, run, StillRunning, removed, h);
    assert Apply(w, e) == Settled(w, g, run, StillRunning, removed);
  }

  lemma ExitStepAnswered(w: World, e: Event, h: Handle)
    requires Enabled(w, e) && ExitsTrue(w, h) && e.StopSignal? && e.result != NoSuchProcess
    ensures ExitsTrue(Apply(w, e), h)
  {
    ExitFrame(w, Apply(w, e), h);
  }

  lemma ExitStepSignal(w: World, e: Event, h: Handle)
    requires Inv(w) && Enabled(w, e) && ExitsTrue(w, h) && e.StopSignal?
    ensures ExitsTrue(Apply(w, e), h)
  {
    if e.result == NoSuchProcess {
      ExitStepNoProcess(w, e.removed, h);
    } else {
      ExitStepAnswered(w, e, h);
    }
  }

  lemma ExitStepPoll(w: World, e: Event, h: Handle)
    requires Inv(w) && Enabled(w, e) && ExitsTrue(w, h) && !BlindPoll(w, e, h) && e.StopPoll?
    ensures ExitsTrue(Apply(w, e), h)
  {
    if Concludes(w, e, h) && h in w.born && OnRecord(w.runs[h], w.born[h]) {
      ConclusionIff(w, e, h);
    }
  }

  lemma ExitStepEnd(w: World, e: Event, h: Handle)
    requires Inv(w) && Enabled(w, e) && ExitsTrue(w, h) && e.StopEnd?
    ensures ExitsTrue(Apply(w, e), h)
  {
    var g := w.stopping.handle;
    var run := AfterSignal(w.runs[g], Sent, w.stopping.dead, e.wait);
    ExitSettled(w, g, run, e.wait, w.stopping.dead && e.removed, h);
    assert Apply(w, e) == Settled(w, g, run, e.wait, w.stopping.dead && e.removed);
  }

  lemma ExitStepStop(w: World, e: Event, h: Handle)
    requires Inv(w) && Enabled(w, e) && ExitsTrue(w, h) && !BlindPoll(w, e, h) && StopEvent(e)
    ensures ExitsTrue(Apply(w, e), h)
  {
    match e
    case StopBegin(_, _, _, _) => ExitStepBegin(w, e, h);
    case StopSignal(_, _) => ExitStepSignal(w, e, h);
    case StopPoll(_) => ExitStepPoll(w, e, h);
    case StopEnd(_, _) => ExitStepEnd(w, e, h);
  }

  lemma ExitStepRefresh(w: World, e: Event, h: Handle)
    requires Inv(w) && Enabled(w, e) && ExitsTrue(w, h) && e.Refresh?
    ensures ExitsTrue(Apply(w, e), h)
  {
    StepLater(w, e);
    if e.handle == h {
      assert RunOk(w.kernel, w.born[h], w.runs[h]);
    }
  }

  lemma ExitStepLoad(w: World, e: Event, h: Handle)
    requires Inv(w) && Enabled(w, e) && ExitsTrue(w, h) && (e.LoadOne? || e.LoadEnd?)
    ensures ExitsTrue(Apply(w, e), h)
  {
  }

  lemma ExitStepKernel(w: World, e: Event, h: Handle)
    requires Inv(w) && Enabled(w, e) && ExitsTrue(w, h) && KernelEvent(e)
    ensures ExitsTrue(Apply(w, e), h)
  {
    StepLater(w, e);
  }

  lemma ExitStepStart(w: World, e: Event, h: Handle)
    requires Inv(w) && Enabled(w, e) && ExitsTrue(w, h) && (e.StartPersist? || e.StartInsert? || e.Adopt?)
    ensures ExitsTrue(Apply(w, e), h)
  {
    assert Apply(w, e).kernel == w.kernel;
  }

  lemma ExitStepSpawn(w: World, e: Event, h: Handle)
    requires Inv(w) && Enabled(w, e) && ExitsTrue(w, h) && (e.StartSpawn? || e.Crash?)
    ensures ExitsTrue(Apply(w, e), h)
  {
    StepLater(w, e);
  }

  lemma ExitStepTake(w: World, e: Event, h: Handle)
    requires BornOk(w.kernel, w.born) && Enabled(w, e) && ExitsTrue(w, h) && e.WriteTake?
    ensures ExitsTrue(Apply(w, e), h)
  {
    var take := TakePipe(w.runs[e.handle], e.wait);
    if take.Gone? {
      ExitUpdate(w, e.handle, take.run, e.wait, h);
      ExitFrame(Update(w, e.handle, take.run, e.wait).(stopping := Idle), Apply(w, e), h);
    } else {
      ExitFrame(w, Apply(w, e), h);
    }
  }

  /** The second section of `write` changes one entry, and of it only the channel. */
  lemma WriteEffect(w: World, e: Event)
    requires Able(w, e) && (e.WriteDone? || e.WriteBroken?)
    ensures var v, g := Apply(w, e), w.writing[e.id].handle;
            && v.kernel == w.kernel && v.born == w.born && v.starting == w.starting && v.loading == w.loading
            && v.stopping == w.stopping
            && (g !in w.runs ==> v.runs == w.runs)
            && (g in w.runs ==>
                  && g in v.runs && v.runs == w.runs[g := v.runs[g]]
                  && v.runs[g].record.ticks == w.runs[g].record.ticks
                  && v.runs[g].record.state == w.runs[g].record.state)
  {
  }

  lemma ExitStepWrite(w: World, e: Event, h: Handle)
    requires Enabled(w, e) && ExitsTrue(w, h) && (e.WriteDone? || e.WriteBroken?)
    ensures ExitsTrue(Apply(w, e), h)
  {
    var v, g := Apply(w, e), w.writing[e.id].handle;
    WriteEffect(w, e);
    if g in w.runs {
      ExitRewrite(w, g, v.runs[g], h);
      ExitFrame(w.(runs := w.runs[g := v.runs[g]]), v, h);
    } else {
      ExitFrame(w, v, h);
    }
  }

  lemma ExitRewrite(w: World, g: Handle, run: Run, h: Handle)
    requires ExitsTrue(w, h) && g in w.runs
    requires run.record.ticks == w.runs[g].record.ticks && run.record.state == w.runs[g].record.state
    ensures ExitsTrue(w.(runs := w.runs[g := run]), h)
  {
  }

  lemma ExitStep(w: World, e: Event, h: Handle)
    requires Inv(w) && Enabled(w, e) && ExitsTrue(w, h) && !BlindPoll(w, e, h)
    ensures ExitsTrue(Apply(w, e), h)
  {
    if StopEvent(e) {
      ExitStepStop(w, e, h);
    } else if e.Refresh? {
      ExitStepRefresh(w, e, h);
    } else if e.LoadOne? || e.LoadEnd? {
      ExitStepLoad(w, e, h);
    } else if KernelEvent(e) {
      ExitStepKernel(w, e, h);
    } else if e.WriteTake? {
      ExitStepTake(w, e, h);
    } else if e.WriteDone? || e.WriteBroken? {
      ExitStepWrite(w, e, h);
    } else if e.StartSpawn? || e.Crash? {
      ExitStepSpawn(w, e, h);
    } else {
      ExitStepStart(w, e, h);
    }
  }

  /** No look of `stop` at `h` fails while its process runs. */
  predicate Sighted(w: World, es: seq<Event>, h: Handle)
    requires Possible(w, es)
    decreases |es|
  {
    es == [] || (!BlindPoll(w, es[0], h) && Sighted(Apply(w, es[0]), es[1..], h))
  }

  lemma {:induction false} ExitRun(w: World, es: seq<Event>, h: Handle)
    requires Inv(w) && Possible(w, es) && Sighted(w, es, h) && ExitsTrue(w, h)
    ensures ExitsTrue(After(w, es), h)
    decreases |es|
  {
    if es != [] {
      StepKeeps(w, es[0]);
      ExitStep(w, es[0], h);
      ExitRun(Apply(w, es[0]), es[1..], h);
    }
  }

  /**
   At any time of any run, whoever wrote it: Exited on a record whose start time
   was readable means that its process does not run, if no look of `stop` at it
   ever failed while it did.
   */
  lemma ExitedIsTrue(es: seq<Event>, h: Handle)
    requires Possible(INITIAL, es) && Sighted(INITIAL, es, h) && h in After(INITIAL, es).runs
    ensures var w := After(INITIAL, es);
            && h in w.born
            && (OnRecord(w.runs[h], w.born[h]) && w.runs[h].record.state == Exited ==>
                  !RunningThere(w.kernel, w.born[h]))
  {
    RunKeeps(INITIAL, es);
    ExitRun(INITIAL, es, h);
  }

  lemma Cons(w: World, e: Event, rest: seq<Event>)
    requires Enabled(w, e) && Possible(Apply(w, e), rest)
    ensures Possible(w, [e] + rest) && After(w, [e] + rest) == After(Apply(w, e), rest)
  {
    assert ([e] + rest)[1..] == rest;
  }

  /**
   And `stop` does reach it: wherever a run has come to, a process that runs under an entry with its
   start time on record can be checked and signalled, and the signal goes to it.
   */
  lemma StopDelivers(es: seq<Event>, h: Handle, expected: Option<nat>, removed: bool)
    requires Possible(INITIAL, es) && Ready(After(INITIAL, es)) && h in After(INITIAL, es).runs
    requires var w := After(INITIAL, es);
             && h in w.born && OnRecord(w.runs[h], w.born[h]) && RunningThere(w.kernel, w.born[h])
             && Deliverable(w.born[h].pid) && (expected.Some? ==> expected.value == w.born[h].pid)
    ensures var w := After(INITIAL, es);
            var stop := [StopBegin(h, expected, Stat(Some(w.born[h].ticks), true), removed)] +
                        ([StopSignal(Sent, removed)] + []);
            && Possible(w, stop)
            && After(w, stop).delivered == w.delivered + [Delivery(h, w.born[h])]
  {
    var w := After(INITIAL, es);
    var check := StopBegin(h, expected, Stat(Some(w.born[h].ticks), true), removed);
    RunKeeps(INITIAL, es);
    assert RunOk(w.kernel, w.born[h], w.runs[h]);
    var v := w.(stopping := Checked(h));
    CheckLetsThrough(w, h, expected, removed);
    SignalArrives(v, h, removed);
    Cons(v, StopSignal(Sent, removed), []);
    Cons(w, check, [StopSignal(Sent, removed)] + []);
  }

  lemma CheckLetsThrough(w: World, h: Handle, expected: Option<nat>, removed: bool)
    requires Ready(w) && h in w.runs && h in w.born && w.runs[h].record.pid == w.born[h].pid
    requires OnRecord(w.runs[h], w.born[h]) && Present(w.kernel, w.born[h])
    requires expected.Some? ==> expected.value == w.born[h].pid
    ensures var check := StopBegin(h, expected, Stat(Some(w.born[h].ticks), true), removed);
            Enabled(w, check) && Apply(w, check) == w.(stopping := Checked(h))
  {
  }

  lemma SignalArrives(w: World, h: Handle, removed: bool)
    requires w.stopping == Checked(h) && h in w.runs && h in w.born && w.runs[h].record.pid == w.born[h].pid
    requires Present(w.kernel, w.born[h]) && Deliverable(w.born[h].pid)
    ensures Enabled(w, StopSignal(Sent, removed))
    ensures Apply(w, StopSignal(Sent, removed)).delivered == w.delivered + [Delivery(h, w.born[h])]
  {
  }

  /** One spawned child, running and held, with its entry and its file. */
  function Started(readable: bool): World {
    var run := StartedRun(7, if readable then Some(1) else None, false, false, false);
    World(Table(map[7 := Process(1, false, true)], {Incarnation(7, 1)}), true, map[], map["a" := run], map[], Idle,
          map[], map["a" := run.record], map["a" := Incarnation(7, 1)], [])
  }

  function StartingUp(readable: bool, rest: seq<Event>): seq<Event> {
    [LoadEnd] + ([StartSpawn("a", 7, 1, readable, false, false, false)] +
                 ([StartPersist("a", Written, {})] + ([StartInsert("a")] + rest)))
  }

  lemma StartsUp(readable: bool, rest: seq<Event>)
    requires Possible(Started(readable), rest)
    ensures Possible(INITIAL, StartingUp(readable, rest))
    ensures After(INITIAL, StartingUp(readable, rest)) == After(Started(readable), rest)
  {
    var spawn := StartSpawn("a", 7, 1, readable, false, false, false);
    var save, enter := StartPersist("a", Written, {}), StartInsert("a");
    var w3 := Started(readable).(runs := map[], starting := Started(readable).runs);
    assert w3.starting - {"a"} == map[];
    assert Apply(w3, enter) == Started(readable);
    var w2 := w3.(disk := map[]);
    assert Apply(w2, save) == w3;
    var w1 := INITIAL.(loaded := true);
    assert Apply(INITIAL, LoadEnd) == w1;
    assert Apply(w1, spawn) == w2;
    Cons(w3, enter, rest);
    Cons(w2, save, [enter] + rest);
    Cons(w1, spawn, [save] + ([enter] + rest));
    Cons(INITIAL, LoadEnd, [spawn] + ([save] + ([enter] + rest)));
  }

  /** The entry is ended and without child, its file is gone, and the process runs. */
  predicate LostTrack(w: World, h: Handle) {
    && h in w.runs && h in w.born
    && w.runs[h].record.state == Exited && w.runs[h].child.None? && h !in w.disk
    && RunningThere(w.kernel, w.born[h])
  }

  function StoppingBlindly(): seq<Event> {
    [StopBegin("a", None, Stat(Some(1), true), true)] +
    ([StopSignal(Sent, true)] + ([StopPoll(None)] + ([StopEnd(StillRunning, true)] + [])))
  }

  /** The child has been signalled. */
  function Signalling(): World {
    Started(true).(stopping := Signalled("a", false), delivered := [Delivery("a", Incarnation(7, 1))])
  }

  lemma LooksBlindly()
    ensures var es := [StopPoll(None)] + ([StopEnd(StillRunning, true)] + []);
            && Possible(Signalling(), es) && LostTrack(After(Signalling(), es), "a")
            && OnRecord(After(Signalling(), es).runs["a"], After(Signalling(), es).born["a"])
  {
    var look, end := StopPoll(None), StopEnd(StillRunning, true);
    var w := Signalling().(stopping := Signalled("a", true));
    assert Apply(Signalling(), look) == w;
    assert LostTrack(Apply(w, end), "a");
    Cons(w, end, []);
    Cons(Signalling(), look, [end] + []);
  }

  lemma StopsBlindly()
    ensures Possible(Started(true), StoppingBlindly())
    ensures var v := After(Started(true), StoppingBlindly()); LostTrack(v, "a") && OnRecord(v.runs["a"], v.born["a"])
  {
    var check, signal := StopBegin("a", None, Stat(Some(1), true), true), StopSignal(Sent, true);
    var rest := [StopPoll(None)] + ([StopEnd(StillRunning, true)] + []);
    var w := Started(true).(stopping := Checked("a"));
    assert Apply(Started(true), check) == w;
    assert Apply(w, signal) == Signalling();
    LooksBlindly();
    Cons(w, signal, rest);
    Cons(Started(true), check, [signal] + rest);
  }

  /**
   Without that it does not hold: a child is started, `stop` signals it and its
   one look fails.  The entry says Exited with the right start time, the child and
   the file are given up, and the process runs on.
   */
  lemma OneFailedLookIsEnough()
    ensures exists es: seq<Event>, h: Handle ::
              && Possible(INITIAL, es) && LostTrack(After(INITIAL, es), h)
              && OnRecord(After(INITIAL, es).runs[h], After(INITIAL, es).born[h])
  {
    StopsBlindly();
    StartsUp(true, StoppingBlindly());
    assert LostTrack(After(INITIAL, StartingUp(true, StoppingBlindly())), "a");
  }

  /**
   Nor without the start time: a child is started whose start time cannot be read at that moment,
   and `stop`, which can read it, takes the child for a stranger.  It sends no signal, ends the
   entry, gives up the child and the file, and the process runs on.
   */
  lemma UnreadableStartIsEnough()
    ensures exists es: seq<Event>, h: Handle ::
              && Possible(INITIAL, es) && LostTrack(After(INITIAL, es), h) && After(INITIAL, es).delivered == []
  {
    var check := StopBegin("a", None, Stat(Some(1), true), true);
    var w := Started(false);
    assert LostTrack(Apply(w, check), "a") && Apply(w, check).delivered == [];
    Cons(w, check, []);
    StartsUp(false, [check] + []);
    assert LostTrack(After(INITIAL, StartingUp(false, [check] + [])), "a");
  }
}
