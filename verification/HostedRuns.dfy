/**
 Whole runs of the hosted-process provider against a hostile kernel.

 Each event is one critical section of the provider (a stretch of code under
 the table lock, or one that touches no shared state), one move of the kernel,
 or the death of the agent.  Events interleave freely, except as `Enabled` says.
 */
module HostedRuns {
  import opened Wrappers
  import opened Kernel
  import opened HostedTable

  /** One signal the kernel delivered for `stop(handle)`. */
  datatype Delivery = Delivery(handle: Handle, target: Incarnation)

  /** `stop` keeps the table lock from its identity check to its answer; `dead` is what `poll_dead` has seen. */
  datatype Stop = Idle | Checked(handle: Handle) | Signalled(handle: Handle, dead: bool)

  datatype Writing = Writing(handle: Handle, close: bool)

  /** How persisting a record ended: a torn file is dropped by the next load. */
  datatype Saved = Written | Unchanged | Torn

  /**
   `born` and `delivered` are history: the incarnation each handle was issued
   for, and every signal delivered so far.
   */
  datatype World = World(
    kernel: Table,
    loaded: bool,
    loading: Runs,              // read back so far
    runs: Runs,
    starting: Runs,             // spawned, not yet in the table
    stopping: Stop,
    writing: map<nat, Writing>, // between the two locked sections of `write`
    disk: map<Handle, Record>,
    born: map<Handle, Incarnation>,
    delivered: seq<Delivery>)

  const INITIAL := World(Table(map[], {}), false, map[], map[], map[], Idle, map[], map[], map[], [])

  datatype Event =
    // the kernel
    | KernelFork(pid: nat, ticks: nat)
    | KernelExit(pid: nat)
    | KernelReap(pid: nat)
    // the agent
    | LoadOne(handle: Handle, stat: Stat)
    | LoadEnd
    | StartSpawn(handle: Handle, pid: nat, ticks: nat, readable: bool, interactive: bool, oneShot: bool, piped: bool)
    | StartPersist(handle: Handle, saved: Saved, pruned: set<Handle>)
    | StartInsert(handle: Handle)
    | Adopt(handle: Handle, pid: nat, ticks: nat, saved: Saved, pruned: set<Handle>)
    | Refresh(handle: Handle, wait: Wait, stat: Stat)
    | StopBegin(handle: Handle, expected: Option<nat>, stat: Stat, removed: bool)
    | StopSignal(result: SignalResult, removed: bool)
    | StopPoll(poll: Poll)
    | StopEnd(wait: Wait, removed: bool)
    | WriteTake(id: nat, handle: Handle, wait: Wait, close: bool)
    | WriteDone(id: nat, saved: Saved, pruned: set<Handle>)
    | WriteBroken(id: nat, saved: Saved, pruned: set<Handle>)
    | Crash

  // ---- helpers ----

  function Persist(disk: map<Handle, Record>, h: Handle, r: Record, saved: Saved, pruned: set<Handle>)
    : map<Handle, Record>
  {
    match saved
    case Written => disk[h := r] - pruned
    case Unchanged => disk
    case Torn => disk - {h}
  }

  /** Pruning removes files only beyond the limit and keeps at least that many. */
  predicate PruneOk(disk: map<Handle, Record>, h: Handle, pruned: set<Handle>) {
    pruned == {} || |(disk.Keys + {h}) - pruned| >= MAX_RUN_RECORDS
  }

  function DropPersisted(disk: map<Handle, Record>, h: Handle, removed: bool): map<Handle, Record> {
    if removed then disk - {h} else disk
  }

  /** The kernel after a section that turned entry `before` into `after`. */
  function KernelAfter(k: Table, before: Run, after: Run, wait: Wait): Table {
    if before.child.Some? && after.child.None? then LetGo(k, before.child.value, wait) else k
  }

  predicate Deliverable(pid: nat) {
    0 < pid <= MAX_PID
  }

  /**
   The one atomicity the model asks for: between the identity check and the
   signal, the pid of a record whose child is not held is not given to a new
   process.  (The process may exit and be reaped.)  A held child needs no such
   promise.
   */
  predicate Undisturbed(w: World, pid: nat) {
    (w.stopping.Checked? && w.stopping.handle in w.runs && w.runs[w.stopping.handle].child.None?) ==>
      w.runs[w.stopping.handle].record.pid != pid
  }

  predicate Ready(w: World) {
    w.loaded && w.stopping.Idle?
  }

  // ---- the transition system ----

  /** A possible event, the promise of `Undisturbed` included. */
  predicate Enabled(w: World, e: Event) {
    Able(w, e) && (e.KernelFork? || e.StartSpawn? ==> Undisturbed(w, e.pid))
  }

  predicate Able(w: World, e: Event) {
    match e
    case KernelFork(pid, ticks) => CanFork(w.kernel, pid, ticks)
    case KernelExit(pid) => CanExit(w.kernel, pid)
    case KernelReap(pid) => CanReap(w.kernel, pid)
    case LoadOne(h, stat) => !w.loaded && h in w.disk && StatTrue(w.kernel, w.disk[h].pid, stat)
    case LoadEnd => !w.loaded
    case StartSpawn(h, pid, ticks, _, _, _, _) => w.loaded && h !in w.born && CanFork(w.kernel, pid, ticks)
    case StartPersist(h, _, pruned) => h in w.starting && PruneOk(w.disk, h, pruned)
    case StartInsert(h) => w.stopping.Idle? && h in w.starting
    case Adopt(h, pid, ticks, _, pruned) =>
      // The readings may be old: that incarnation need not be there any more.
      && Ready(w) && h !in w.born && pid > 0 && ticks > 0 && Incarnation(pid, ticks) in w.kernel.past
      && (forall g <- w.runs :: !(w.runs[g].record.pid == pid && w.runs[g].record.state == Running))
      && PruneOk(w.disk, h, pruned)
    case Refresh(h, wait, stat) =>
      && Ready(w) && h in w.runs
      && (if w.runs[h].child.Some? then WaitTrue(w.kernel, w.runs[h].child.value, wait)
          else StatTrue(w.kernel, w.runs[h].record.pid, stat))
    case StopBegin(h, _, stat, _) => Ready(w) && h in w.runs && StatTrue(w.kernel, w.runs[h].record.pid, stat)
    case StopSignal(result, _) =>
      && w.stopping.Checked? && w.stopping.handle in w.runs
      && var pid := w.runs[w.stopping.handle].record.pid;
      && (!Deliverable(pid) ==> result == Failed)
      && (result == Sent ==> pid in w.kernel.procs)
      && (result == NoSuchProcess ==> pid !in w.kernel.procs)
    case StopPoll(poll) =>
      && w.stopping.Signalled? && !w.stopping.dead && w.stopping.handle in w.runs
      && PollTrue(w.kernel, w.runs[w.stopping.handle].record.pid, poll)
    case StopEnd(wait, _) =>
      && w.stopping.Signalled? && w.stopping.handle in w.runs
      && var run := w.runs[w.stopping.handle];
      (run.child.Some? ==> WaitTrue(w.kernel, run.child.value, wait))
    case WriteTake(id, h, wait, _) =>
      && Ready(w) && id !in w.writing && h in w.runs
      && (w.runs[h].child.Some? ==> WaitTrue(w.kernel, w.runs[h].child.value, wait))
    case WriteDone(id, _, pruned) =>
      w.stopping.Idle? && id in w.writing && PruneOk(w.disk, w.writing[id].handle, pruned)
    case WriteBroken(id, _, pruned) =>
      w.stopping.Idle? && id in w.writing && PruneOk(w.disk, w.writing[id].handle, pruned)
    case Crash => true
  }

  function Apply(w: World, e: Event): World
    requires Able(w, e)
  {
    match e
    case KernelFork(pid, ticks) => w.(kernel := Fork(w.kernel, pid, ticks, false))
    case KernelExit(pid) => w.(kernel := Exit(w.kernel, pid))
    case KernelReap(pid) => w.(kernel := Reap(w.kernel, pid))
    case LoadOne(h, stat) => w.(loading := w.loading[h := ReloadedRun(w.disk[h], stat)])
    case LoadEnd => w.(loaded := true, loading := map[], runs := w.loading)
    case StartSpawn(h, pid, ticks, readable, interactive, oneShot, piped) =>
      var run := StartedRun(pid, if readable then Some(ticks) else None, interactive, oneShot, piped);
      w.(kernel := Fork(w.kernel, pid, ticks, true), starting := w.starting[h := run],
         born := w.born[h := Incarnation(pid, ticks)])
    case StartPersist(h, saved, pruned) =>
      w.(disk := Persist(w.disk, h, w.starting[h].record, saved, pruned))
    case StartInsert(h) =>
      w.(runs := w.runs[h := w.starting[h]], starting := w.starting - {h})
    case Adopt(h, pid, ticks, saved, pruned) =>
      var run := AdoptedRun(pid, ticks);
      w.(runs := w.runs[h := run], born := w.born[h := Incarnation(pid, ticks)],
         disk := Persist(w.disk, h, run.record, saved, pruned))
    case Refresh(h, wait, stat) => Update(w, h, RefreshRun(w.runs[h], wait, stat), wait)
    case StopBegin(h, expected, stat, removed) =>
      (match StopCheck(w.runs[h], expected, stat)
       case AlreadyGone(run) =>
         Update(w, h, run, StillRunning).(disk := DropPersisted(w.disk, h, removed))
       case Signal(_) => w.(stopping := Checked(h))
       case _ => w)
    case StopSignal(result, removed) =>
      var h := w.stopping.handle;
      (match result
       case Sent =>
         var pid := w.runs[h].record.pid;
         w.(stopping := Signalled(h, false),
            delivered := w.delivered + [Delivery(h, Incarnation(pid, w.kernel.procs[pid].ticks))])
       case NoSuchProcess =>
         Update(w, h, AfterSignal(w.runs[h], result, false, StillRunning), StillRunning)
           .(stopping := Idle, disk := DropPersisted(w.disk, h, removed))
       case _ => w.(stopping := Idle))
    case StopPoll(poll) => w.(stopping := Signalled(w.stopping.handle, SaysDead(poll)))
    case StopEnd(wait, removed) =>
      var h, dead := w.stopping.handle, w.stopping.dead;
      Update(w, h, AfterSignal(w.runs[h], Sent, dead, wait), wait)
        .(stopping := Idle, disk := DropPersisted(w.disk, h, dead && removed))
    case WriteTake(id, h, wait, close) =>
      (match TakePipe(w.runs[h], wait)
       case Gone(run) => Update(w, h, run, wait)
       case Pipe => w.(writing := w.writing[id := Writing(h, close)])
       case NoPipe => w)
    case WriteDone(id, saved, pruned) =>
      var job := w.writing[id];
      var v := w.(writing := w.writing - {id});
      if job.handle !in w.runs then v
      else
        var run := if job.close then WithoutStdin(w.runs[job.handle], Once) else w.runs[job.handle];
        v.(runs := w.runs[job.handle := run], disk := Persist(w.disk, job.handle, run.record, saved, pruned))
    case WriteBroken(id, saved, pruned) =>
      var job := w.writing[id];
      var v := w.(writing := w.writing - {id});
      if job.handle !in w.runs then v
      else
        var run := WithoutStdin(w.runs[job.handle], Lost);
        v.(runs := w.runs[job.handle := run], disk := Persist(w.disk, job.handle, run.record, saved, pruned))
    case Crash =>
      w.(kernel := Orphan(w.kernel), loaded := false, loading := map[], runs := map[], starting := map[],
        stopping := Idle, writing := map[])
  }

  function Update(w: World, h: Handle, run: Run, wait: Wait): World
    requires h in w.runs
  {
    w.(kernel := KernelAfter(w.kernel, w.runs[h], run, wait), runs := w.runs[h := run])
  }

  /** `es` can happen, in this order, from `w`. */
  predicate Possible(w: World, es: seq<Event>)
    decreases |es|
  {
    es == [] || (Enabled(w, es[0]) && Possible(Apply(w, es[0]), es[1..]))
  }

  function After(w: World, es: seq<Event>): World
    requires Possible(w, es)
    decreases |es|
  {
    if es == [] then w else After(Apply(w, es[0]), es[1..])
  }

  /** `es` can happen if nobody keeps the promise of `Undisturbed`. */
  predicate Loosely(w: World, es: seq<Event>)
    decreases |es|
  {
    es == [] || (Able(w, es[0]) && Loosely(Apply(w, es[0]), es[1..]))
  }

  function LooselyAfter(w: World, es: seq<Event>): World
    requires Loosely(w, es)
    decreases |es|
  {
    if es == [] then w else LooselyAfter(Apply(w, es[0]), es[1..])
  }

  // ---- the inductive invariant ----

  type Born = map<Handle, Incarnation>

  /** Every incarnation a handle stands for has really existed. */
  ghost predicate BornOk(k: Table, born: Born) {
    forall h <- born :: born[h] in k.past && born[h].pid > 0 && born[h].ticks > 0
  }

  ghost predicate EntriesOk(k: Table, born: Born, runs: Runs) {
    forall h <- runs :: h in born && RunOk(k, born[h], runs[h])
  }

  ghost predicate DiskOk(born: Born, disk: map<Handle, Record>) {
    forall h <- disk :: h in born && Describes(disk[h], born[h])
  }

  predicate HoldsChild(runs: Runs, h: Handle) {
    h in runs && runs[h].child.Some?
  }

  /** Two entries never hold the same child; a spawned one holds its own. */
  ghost predicate ChildrenApart(born: Born, runs: Runs, starting: Runs) {
    && runs.Keys !! starting.Keys
    && (forall h <- starting :: starting[h].child.Some?)
    && runs.Keys <= born.Keys && starting.Keys <= born.Keys
    && (forall g, h :: HoldsChild(runs, g) && HoldsChild(runs, h) && g != h ==> born[g].pid != born[h].pid)
    && (forall g, h :: HoldsChild(runs, g) && h in starting ==> born[g].pid != born[h].pid)
    && (forall g, h :: g in starting && h in starting && g != h ==> born[g].pid != born[h].pid)
  }

  ghost predicate StopOk(k: Table, born: Born, runs: Runs, stopping: Stop) {
    !stopping.Idle? ==>
      && stopping.handle in runs && stopping.handle in born
      && (stopping.Checked? ==> Unshared(k, born[stopping.handle]))
  }

  /** Whoever has the pid of `i`, if anybody, is `i`. */
  predicate Unshared(k: Table, i: Incarnation) {
    i.pid in k.procs ==> Present(k, i)
  }

  ghost predicate DeliveredOk(born: Born, delivered: seq<Delivery>) {
    forall d <- delivered :: d.handle in born && d.target == born[d.handle] && Deliverable(d.target.pid)
  }

  /** What has been read back so far holds no child and no pipe. */
  ghost predicate LoadingOk(born: Born, loading: Runs) {
    forall h <- loading ::
      && h in born && Describes(loading[h].record, born[h])
      && loading[h].child.None? && loading[h].record.exitCode.None?
      && !loading[h].stdin && StdinTrue(loading[h])
  }

  ghost predicate LoadedOk(w: World) {
    !w.loaded ==> w.runs == map[] && w.starting == map[] && w.stopping.Idle?
  }

  ghost predicate Inv(w: World) {
    && Valid(w.kernel)
    && BornOk(w.kernel, w.born)
    && EntriesOk(w.kernel, w.born, w.runs)
    && EntriesOk(w.kernel, w.born, w.starting)
    && DiskOk(w.born, w.disk)
    && ChildrenApart(w.born, w.runs, w.starting)
    && StopOk(w.kernel, w.born, w.runs, w.stopping)
    && DeliveredOk(w.born, w.delivered)
    && LoadingOk(w.born, w.loading)
    && LoadedOk(w)
  }

  // ---- pieces of the induction ----

  /** A kernel move that takes no held child away leaves the entries true. */
  lemma EntriesFrame(k: Table, l: Table, born: Born, runs: Runs)
    requires EntriesOk(k, born, runs) && k.past <= l.past
    requires forall h :: HoldsChild(runs, h) ==> Held(l, born[h])
    ensures EntriesOk(l, born, runs)
  {
    forall h <- runs
      ensures RunOk(l, born[h], runs[h])
    {
      assert RunOk(k, born[h], runs[h]);
      assert runs[h].child.Some? ==> HoldsChild(runs, h);
    }
  }

  /** Letting the child at `pid` go concerns no other pid. */
  lemma LetGoFrame(k: Table, pid: nat, wait: Wait)
    requires Valid(k)
    ensures var l := LetGo(k, pid, wait);
            && Valid(l) && l.past == k.past
            && forall i: Incarnation :: i.pid != pid && Held(k, i) ==> Held(l, i)
  {
  }

  /** Rewriting one entry, possibly letting its child go. */
  lemma UpdateKeeps(w: World, h: Handle, run: Run, wait: Wait)
    requires Inv(w) && w.stopping.Idle? && h in w.runs
    requires RunOk(w.kernel, w.born[h], run)
    requires run.child == w.runs[h].child || run.child.None?
    ensures Inv(Update(w, h, run, wait))
  {
    var runs := w.runs[h := run];
    assert forall g :: HoldsChild(runs, g) ==> HoldsChild(w.runs, g);
    assert ChildrenApart(w.born, runs, w.starting);
    assert EntriesOk(w.kernel, w.born, runs);
    if w.runs[h].child.Some? && run.child.None? {
      var pid := w.runs[h].child.value;
      assert RunOk(w.kernel, w.born[h], w.runs[h]);
      LetGoFrame(w.kernel, pid, wait);
      LetGoKeeps(w, h, runs, wait);
    }
  }

  lemma LetGoKeeps(w: World, h: Handle, runs: Runs, wait: Wait)
    requires Inv(w) && HoldsChild(w.runs, h) && w.born[h].pid == w.runs[h].child.value
    requires runs.Keys == w.runs.Keys && !HoldsChild(runs, h)
    requires forall g :: HoldsChild(runs, g) ==> HoldsChild(w.runs, g) && runs[g] == w.runs[g]
    requires EntriesOk(w.kernel, w.born, runs)
    ensures var l := LetGo(w.kernel, w.runs[h].child.value, wait);
            EntriesOk(l, w.born, runs) && EntriesOk(l, w.born, w.starting)
  {
    var pid := w.runs[h].child.value;
    LetGoFrame(w.kernel, pid, wait);
    var l := LetGo(w.kernel, pid, wait);
    forall g | HoldsChild(runs, g)
      ensures Held(l, w.born[g])
    {
      assert HoldsChild(w.runs, g);
      assert RunOk(w.kernel, w.born[g], w.runs[g]);
    }
    EntriesFrame(w.kernel, l, w.born, runs);
    forall g | HoldsChild(w.starting, g)
      ensures Held(l, w.born[g])
    {
      assert RunOk(w.kernel, w.born[g], w.starting[g]);
    }
    EntriesFrame(w.kernel, l, w.born, w.starting);
  }

  /** A move of somebody else: held children stay held. */
  lemma KernelFrame(w: World, l: Table)
    requires Inv(w) && Valid(l) && w.kernel.past <= l.past
    requires forall i :: Held(w.kernel, i) ==> Held(l, i)
    requires w.stopping.Checked? ==> Unshared(l, w.born[w.stopping.handle])
    ensures Inv(w.(kernel := l))
  {
    forall h | HoldsChild(w.runs, h)
      ensures Held(l, w.born[h])
    {
      assert RunOk(w.kernel, w.born[h], w.runs[h]);
    }
    EntriesFrame(w.kernel, l, w.born, w.runs);
    forall h | HoldsChild(w.starting, h)
      ensures Held(l, w.born[h])
    {
      assert RunOk(w.kernel, w.born[h], w.starting[h]);
    }
    EntriesFrame(w.kernel, l, w.born, w.starting);
  }

  // ---- every event keeps the invariant ----

  /** A fork, by the agent or by anybody else. */
  lemma ForkKeeps(w: World, pid: nat, ticks: nat, held: bool)
    requires Inv(w) && CanFork(w.kernel, pid, ticks) && Undisturbed(w, pid)
    ensures Inv(w.(kernel := Fork(w.kernel, pid, ticks, held)))
  {
    ForkLater(w.kernel, pid, ticks, held);
    if w.stopping.Checked? {
      assert RunOk(w.kernel, w.born[w.stopping.handle], w.runs[w.stopping.handle]);
    }
    KernelFrame(w, Fork(w.kernel, pid, ticks, held));
  }

  lemma ExitKeeps(w: World, pid: nat)
    requires Inv(w) && CanExit(w.kernel, pid)
    ensures Inv(w.(kernel := Exit(w.kernel, pid)))
  {
    KernelFrame(w, Exit(w.kernel, pid));
  }

  lemma ReapKeeps(w: World, pid: nat)
    requires Inv(w) && CanReap(w.kernel, pid)
    ensures Inv(w.(kernel := Reap(w.kernel, pid)))
  {
    KernelFrame(w, Reap(w.kernel, pid));
  }

  lemma KernelEventKeeps(w: World, e: Event)
    requires Inv(w) && Enabled(w, e)
    requires KernelEvent(e)
    ensures Inv(Apply(w, e))
  {
    match e
    case KernelFork(pid, ticks) => ForkKeeps(w, pid, ticks, false);
    case KernelExit(pid) => ExitKeeps(w, pid);
    case KernelReap(pid) => ReapKeeps(w, pid);
  }

  lemma LoadKeeps(w: World, e: Event)
    requires Inv(w) && (e.LoadOne? || e.LoadEnd?) && Enabled(w, e)
    ensures Inv(Apply(w, e))
  {
    if e.LoadEnd? {
      assert EntriesOk(w.kernel, w.born, w.loading);
      assert ChildrenApart(w.born, w.loading, map[]);
    }
  }

  lemma SpawnedApart(w: World, pid: nat)
    requires Inv(w) && pid !in w.kernel.procs
    ensures forall g :: g in w.starting || HoldsChild(w.runs, g) ==> g in w.born && w.born[g].pid != pid
  {
    forall g | g in w.starting || HoldsChild(w.runs, g)
      ensures g in w.born && w.born[g].pid != pid
    {
      if g in w.starting {
        assert RunOk(w.kernel, w.born[g], w.starting[g]);
      } else {
        assert RunOk(w.kernel, w.born[g], w.runs[g]);
      }
    }
  }

  lemma IssueEntries(k: Table, born: Born, runs: Runs, h: Handle, i: Incarnation)
    requires EntriesOk(k, born, runs) && h !in born
    ensures EntriesOk(k, born[h := i], runs)
  {
    forall g <- runs
      ensures g in born[h := i] && RunOk(k, born[h := i][g], runs[g])
    {
      assert g in born && RunOk(k, born[g], runs[g]);
    }
  }

  lemma IssueChildren(born: Born, runs: Runs, starting: Runs, h: Handle, i: Incarnation)
    requires ChildrenApart(born, runs, starting) && h !in born
    ensures ChildrenApart(born[h := i], runs, starting)
  {
  }

  /** Issuing a fresh handle disturbs nothing that is already known. */
  lemma IssueKeeps(w: World, h: Handle, i: Incarnation)
    requires Inv(w) && h !in w.born && i in w.kernel.past && i.pid > 0 && i.ticks > 0
    ensures Inv(w.(born := w.born[h := i]))
  {
    IssueEntries(w.kernel, w.born, w.runs, h, i);
    IssueEntries(w.kernel, w.born, w.starting, h, i);
    IssueChildren(w.born, w.runs, w.starting, h, i);
  }

  lemma SpawnKeeps(w: World, e: Event)
    requires Inv(w) && e.StartSpawn? && Enabled(w, e)
    ensures Inv(Apply(w, e))
  {
    var v := Apply(w, e);
    var i := Incarnation(e.pid, e.ticks);
    var u := w.(kernel := v.kernel);
    ForkKeeps(w, e.pid, e.ticks, true);
    SpawnedApart(w, e.pid);
    IssueKeeps(u, e.handle, i);
    EnterStarting(u.(born := v.born), e.handle, v.starting[e.handle]);
  }

  lemma EnterStarting(w: World, h: Handle, run: Run)
    requires Inv(w) && w.loaded && h in w.born && h !in w.runs && h !in w.starting
    requires RunOk(w.kernel, w.born[h], run) && run.child.Some?
    requires forall g :: g in w.starting || HoldsChild(w.runs, g) ==> w.born[g].pid != w.born[h].pid
    ensures Inv(w.(starting := w.starting[h := run]))
  {
    var starting := w.starting[h := run];
    assert ChildrenApart(w.born, w.runs, starting);
    assert EntriesOk(w.kernel, w.born, starting);
  }

  lemma EntryMoves(k: Table, born: Born, runs: Runs, starting: Runs, h: Handle)
    requires EntriesOk(k, born, runs) && EntriesOk(k, born, starting) && h in starting
    ensures EntriesOk(k, born, runs[h := starting[h]]) && EntriesOk(k, born, starting - {h})
  {
  }

  lemma ChildMoves(born: Born, runs: Runs, starting: Runs, h: Handle)
    requires ChildrenApart(born, runs, starting) && h in starting
    ensures ChildrenApart(born, runs[h := starting[h]], starting - {h})
  {
    assert forall g :: HoldsChild(runs[h := starting[h]], g) ==> g == h || HoldsChild(runs, g);
  }

  lemma InsertKeeps(w: World, e: Event)
    requires Inv(w) && e.StartInsert? && Enabled(w, e)
    ensures Inv(Apply(w, e))
  {
    EntryMoves(w.kernel, w.born, w.runs, w.starting, e.handle);
    ChildMoves(w.born, w.runs, w.starting, e.handle);
  }

  lemma PersistKeeps(w: World, h: Handle, r: Record, saved: Saved, pruned: set<Handle>)
    requires Inv(w) && h in w.born && Describes(r, w.born[h])
    ensures Inv(w.(disk := Persist(w.disk, h, r, saved, pruned)))
  {
    assert DiskOk(w.born, Persist(w.disk, h, r, saved, pruned));
  }

  lemma DropKeeps(w: World, h: Handle, removed: bool)
    requires Inv(w)
    ensures Inv(w.(disk := DropPersisted(w.disk, h, removed)))
  {
    assert DiskOk(w.born, DropPersisted(w.disk, h, removed));
  }

  lemma AdoptKeeps(w: World, e: Event)
    requires Inv(w) && e.Adopt? && Enabled(w, e)
    ensures Inv(Apply(w, e))
  {
    var run := AdoptedRun(e.pid, e.ticks);
    var i := Incarnation(e.pid, e.ticks);
    var u := w.(born := w.born[e.handle := i]);
    IssueKeeps(w, e.handle, i);
    var v := u.(runs := w.runs[e.handle := run]);
    AddUnheld(u, e.handle, run);
    PersistKeeps(v, e.handle, run.record, e.saved, e.pruned);
  }

  lemma AddUnheld(w: World, h: Handle, run: Run)
    requires Inv(w) && Ready(w) && h in w.born && h !in w.runs && h !in w.starting
    requires RunOk(w.kernel, w.born[h], run) && run.child.None?
    ensures Inv(w.(runs := w.runs[h := run]))
  {
    var runs := w.runs[h := run];
    assert forall g :: HoldsChild(runs, g) ==> HoldsChild(w.runs, g);
    assert ChildrenApart(w.born, runs, w.starting);
    assert EntriesOk(w.kernel, w.born, runs);
  }

  function Settled(w: World, h: Handle, run: Run, wait: Wait, removed: bool): World
    requires h in w.runs
  {
    Update(w, h, run, wait).(stopping := Idle, disk := DropPersisted(w.disk, h, removed))
  }

  /** `stop` answers: the entry is rewritten, its file may go, the lock is released. */
  lemma SettleKeeps(w: World, h: Handle, run: Run, wait: Wait, removed: bool)
    requires Inv(w) && h in w.runs && RunOk(w.kernel, w.born[h], run)
    requires run.child == w.runs[h].child || run.child.None?
    ensures Inv(Settled(w, h, run, wait, removed))
  {
    var idle := w.(stopping := Idle);
    UpdateKeeps(idle, h, run, wait);
    DropKeeps(Update(idle, h, run, wait), h, removed);
  }

  lemma CheckKeeps(w: World, h: Handle, expected: Option<nat>, stat: Stat)
    requires Inv(w) && Ready(w) && h in w.runs && StatTrue(w.kernel, w.runs[h].record.pid, stat)
    requires StopCheck(w.runs[h], expected, stat).Signal?
    ensures Inv(w.(stopping := Checked(h)))
  {
    assert RunOk(w.kernel, w.born[h], w.runs[h]);
    StopChecksIdentity(w.kernel, w.born[h], w.runs[h], expected, stat);
  }

  lemma StopBeginKeeps(w: World, e: Event)
    requires Inv(w) && e.StopBegin? && Enabled(w, e)
    ensures Inv(Apply(w, e))
  {
    var check := StopCheck(w.runs[e.handle], e.expected, e.stat);
    if check.AlreadyGone? {
      assert RunOk(w.kernel, w.born[e.handle], w.runs[e.handle]);
      SettleKeeps(w, e.handle, check.run, StillRunning, e.removed);
    } else if check.Signal? {
      CheckKeeps(w, e.handle, e.expected, e.stat);
    }
  }

  lemma DeliveryKeeps(w: World, result: SignalResult, removed: bool)
    requires Inv(w) && Enabled(w, StopSignal(result, removed)) && result == Sent
    ensures Inv(Apply(w, StopSignal(result, removed)))
  {
    assert RunOk(w.kernel, w.born[w.stopping.handle], w.runs[w.stopping.handle]);
    assert DeliveredOk(w.born, Apply(w, StopSignal(result, removed)).delivered);
  }

  lemma StopSignalKeeps(w: World, e: Event)
    requires Inv(w) && e.StopSignal? && Enabled(w, e)
    ensures Inv(Apply(w, e))
  {
    var h := w.stopping.handle;
    if e.result == NoSuchProcess {
      var run := AfterSignal(w.runs[h], e.result, false, StillRunning);
      assert RunOk(w.kernel, w.born[h], w.runs[h]);
      SettleKeeps(w, h, run, StillRunning, e.removed);
      assert Apply(w, e) == Settled(w, h, run, StillRunning, e.removed);
    } else if e.result == Sent {
      DeliveryKeeps(w, e.result, e.removed);
    }
  }

  lemma StopEndKeeps(w: World, e: Event)
    requires Inv(w) && e.StopEnd? && Enabled(w, e)
    ensures Inv(Apply(w, e))
  {
    var h, dead := w.stopping.handle, w.stopping.dead;
    var run := AfterSignal(w.runs[h], Sent, dead, e.wait);
    assert RunOk(w.kernel, w.born[h], w.runs[h]);
    SettleKeeps(w, h, run, e.wait, dead && e.removed);
    assert Apply(w, e) == Settled(w, h, run, e.wait, dead && e.removed);
  }

  lemma RefreshKeeps(w: World, e: Event)
    requires Inv(w) && e.Refresh? && Enabled(w, e)
    ensures Inv(Apply(w, e))
  {
    assert RunOk(w.kernel, w.born[e.handle], w.runs[e.handle]);
    UpdateKeeps(w, e.handle, RefreshRun(w.runs[e.handle], e.wait, e.stat), e.wait);
  }

  lemma WriteTakeKeeps(w: World, e: Event)
    requires Inv(w) && e.WriteTake? && Enabled(w, e)
    ensures Inv(Apply(w, e))
  {
    var run := w.runs[e.handle];
    assert RunOk(w.kernel, w.born[e.handle], run);
    var take := TakePipe(run, e.wait);
    if take.Gone? {
      UpdateKeeps(w, e.handle, take.run, e.wait);
    }
  }

  /** An entry keeps its process, may lose its channel, and is persisted. */
  lemma EntryPersisted(w: World, h: Handle, run: Run, saved: Saved, pruned: set<Handle>)
    requires Inv(w) && w.stopping.Idle? && h in w.runs
    requires run == w.runs[h] || exists mode | mode != Open :: run == WithoutStdin(w.runs[h], mode)
    ensures Inv(w.(runs := w.runs[h := run], disk := Persist(w.disk, h, run.record, saved, pruned)))
  {
    assert RunOk(w.kernel, w.born[h], w.runs[h]);
    UpdateKeeps(w, h, run, StillRunning);
    PersistKeeps(w.(runs := w.runs[h := run]), h, run.record, saved, pruned);
  }

  lemma WriteEndKeeps(w: World, e: Event)
    requires Inv(w) && Enabled(w, e)
    requires e.WriteDone? || e.WriteBroken?
    ensures Inv(Apply(w, e))
  {
    var job := w.writing[e.id];
    var h := job.handle;
    var v := w.(writing := w.writing - {e.id});
    if h in w.runs {
      var run := if e.WriteBroken? then WithoutStdin(w.runs[h], Lost)
                 else if job.close then WithoutStdin(w.runs[h], Once) else w.runs[h];
      EntryPersisted(v, h, run, e.saved, e.pruned);
    }
  }

  lemma CrashKeeps(w: World)
    requires Inv(w)
    ensures Inv(Apply(w, Crash))
  {
  }

  lemma StopPollKeeps(w: World, e: Event)
    requires Inv(w) && e.StopPoll? && Enabled(w, e)
    ensures Inv(Apply(w, e))
  {
  }

  predicate StopEvent(e: Event) {
    e.StopBegin? || e.StopSignal? || e.StopPoll? || e.StopEnd?
  }

  predicate KernelEvent(e: Event) {
    e.KernelFork? || e.KernelExit? || e.KernelReap?
  }

  lemma StopStepKeeps(w: World, e: Event)
    requires Inv(w) && Enabled(w, e) && StopEvent(e)
    ensures Inv(Apply(w, e))
  {
    match e
    case StopBegin(_, _, _, _) => StopBeginKeeps(w, e);
    case StopSignal(_, _) => StopSignalKeeps(w, e);
    case StopPoll(_) => StopPollKeeps(w, e);
    case StopEnd(_, _) => StopEndKeeps(w, e);
  }

  lemma StartPersistKeeps(w: World, e: Event)
    requires Inv(w) && e.StartPersist? && Enabled(w, e)
    ensures Inv(Apply(w, e))
  {
    assert RunOk(w.kernel, w.born[e.handle], w.starting[e.handle]);
    PersistKeeps(w, e.handle, w.starting[e.handle].record, e.saved, e.pruned);
  }

  lemma StepKeeps(w: World, e: Event)
    requires Inv(w) && Enabled(w, e)
    ensures Inv(Apply(w, e))
  {
    if StopEvent(e) {
      StopStepKeeps(w, e);
    } else if KernelEvent(e) {
      KernelEventKeeps(w, e);
    } else {
      match e
      case LoadOne(_, _) => LoadKeeps(w, e);
      case LoadEnd => LoadKeeps(w, e);
      case StartSpawn(_, _, _, _, _, _, _) => SpawnKeeps(w, e);
      case StartPersist(_, _, _) => StartPersistKeeps(w, e);
      case StartInsert(_) => InsertKeeps(w, e);
      case Adopt(_, _, _, _, _) => AdoptKeeps(w, e);
      case Refresh(_, _, _) => RefreshKeeps(w, e);
      case WriteTake(_, _, _, _) => WriteTakeKeeps(w, e);
      case WriteDone(_, _, _) => WriteEndKeeps(w, e);
      case WriteBroken(_, _, _) => WriteEndKeeps(w, e);
      case Crash => CrashKeeps(w);
    }
  }

  lemma {:induction false} RunKeeps(w: World, es: seq<Event>)
    requires Inv(w) && Possible(w, es)
    ensures Inv(After(w, es))
    decreases |es|
  {
    if es != [] {
      StepKeeps(w, es[0]);
      RunKeeps(Apply(w, es[0]), es[1..]);
    }
  }
}
