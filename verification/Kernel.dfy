/**
 The kernel's process table as the agent can observe it.

 Time is measured by table changes.  A pid names at most one process at a
 time, a pid may be used again once its holder has been reaped, and the start
 ticks tell the users of one pid apart for the whole of one boot.
 */
module Kernel {
  import opened Wrappers

  /** One process from fork to reap: the identity the agent writes down. */
  datatype Incarnation = Incarnation(pid: nat, ticks: nat)

  /**
   `zombie`: the process has exited and waits to be reaped.
   `held`: the agent holds a Child handle on it, so nobody else can reap it and
   its pid cannot be given away.
   */
  datatype Process = Process(ticks: nat, zombie: bool, held: bool)

  /** `past` remembers every incarnation of this boot. */
  datatype Table = Table(procs: map<nat, Process>, past: set<Incarnation>)

  /** What one look at `/proc/<pid>` answers. */
  datatype Stat = Stat(ticks: Option<nat>, listed: bool)

  /** What `try_wait` answers on a held child. */
  datatype Wait = Done(code: Option<int>) | StillRunning | WaitFailed

  ghost predicate Valid(k: Table) {
    forall p <- k.procs :: p > 0 && k.procs[p].ticks > 0 && Incarnation(p, k.procs[p].ticks) in k.past
  }

  /** The incarnation is in the process table, running or waiting to be reaped. */
  predicate Present(k: Table, i: Incarnation) {
    i.pid in k.procs && k.procs[i.pid].ticks == i.ticks
  }

  predicate RunningThere(k: Table, i: Incarnation) {
    Present(k, i) && !k.procs[i.pid].zombie
  }

  predicate Held(k: Table, i: Incarnation) {
    Present(k, i) && k.procs[i.pid].held
  }

  /** A reading can fail at any time; what it does report is the truth. */
  predicate StatTrue(k: Table, pid: nat, s: Stat) {
    && (s.ticks.Some? ==> pid in k.procs && k.procs[pid].ticks == s.ticks.value)
    && (!s.listed ==> pid !in k.procs)
  }

  /** `waitpid` reports an exit exactly for a zombie. */
  predicate WaitTrue(k: Table, pid: nat, w: Wait) {
    pid in k.procs && (w.Done? ==> k.procs[pid].zombie) && (w.StillRunning? ==> !k.procs[pid].zombie)
  }

  // ---- what the rest of the system can do ----

  /** A process appears: the pid is free and the pair of pid and ticks is new. */
  predicate CanFork(k: Table, pid: nat, ticks: nat) {
    pid > 0 && ticks > 0 && pid !in k.procs && Incarnation(pid, ticks) !in k.past
  }

  function Fork(k: Table, pid: nat, ticks: nat, held: bool): Table {
    Table(k.procs[pid := Process(ticks, false, held)], k.past + {Incarnation(pid, ticks)})
  }

  predicate CanExit(k: Table, pid: nat) {
    pid in k.procs
  }

  function Exit(k: Table, pid: nat): Table
    requires CanExit(k, pid)
  {
    k.(procs := k.procs[pid := k.procs[pid].(zombie := true)])
  }

  /** Somebody other than the agent reaps a zombie: its pid is free again. */
  predicate CanReap(k: Table, pid: nat) {
    pid in k.procs && k.procs[pid].zombie && !k.procs[pid].held
  }

  function Reap(k: Table, pid: nat): Table {
    k.(procs := k.procs - {pid})
  }

  // ---- what the agent does to the table ----

  /**
   The agent lets a Child handle go.  After `Done` the process is reaped;
   otherwise it is left to whoever reaps orphans.
   */
  function LetGo(k: Table, pid: nat, w: Wait): Table {
    if pid !in k.procs then k
    else if w.Done? then Reap(k, pid)
    else k.(procs := k.procs[pid := k.procs[pid].(held := false)])
  }

  /** A child that has ended is reaped with its handle, and its pid is free; any other one is left alone. */
  lemma LetGoIs(k: Table, pid: nat, w: Wait)
    requires pid in k.procs
    ensures w.Done? ==> LetGo(k, pid, w).procs == k.procs - {pid}
    ensures !w.Done? ==>
              LetGo(k, pid, w).procs == k.procs[pid := Process(k.procs[pid].ticks, k.procs[pid].zombie, false)]
    ensures LetGo(k, pid, w).past == k.past
  {
  }

  /** The agent process is gone: init inherits every child. */
  function Orphan(k: Table): Table {
    k.(procs := map p | p in k.procs :: k.procs[p].(held := false))
  }

  // ---- the passage of time ----

  /**
   `l` can be the table some time after `k`: an incarnation of the past is
   never in the table again once it has left it, and a zombie never runs again.
   */
  ghost predicate Later(k: Table, l: Table) {
    && k.past <= l.past
    && (forall i <- k.past :: Present(l, i) ==> Present(k, i))
    && (forall i <- k.past :: RunningThere(l, i) ==> RunningThere(k, i))
  }

  lemma LaterTransitive(a: Table, b: Table, c: Table)
    requires Later(a, b) && Later(b, c)
    ensures Later(a, c)
  {
    forall i <- a.past
      ensures Present(c, i) ==> Present(a, i)
      ensures RunningThere(c, i) ==> RunningThere(a, i)
    {
      assert i in b.past;
    }
  }

  lemma ForkLater(k: Table, pid: nat, ticks: nat, held: bool)
    requires Valid(k) && CanFork(k, pid, ticks)
    ensures Valid(Fork(k, pid, ticks, held)) && Later(k, Fork(k, pid, ticks, held))
  {
    var l := Fork(k, pid, ticks, held);
    forall i <- k.past
      ensures Present(l, i) ==> Present(k, i)
    {
      assert i != Incarnation(pid, ticks);
    }
  }

  lemma MovesLater(k: Table, pid: nat, w: Wait)
    ensures CanExit(k, pid) ==> Later(k, Exit(k, pid))
    ensures Later(k, Reap(k, pid)) && Later(k, LetGo(k, pid, w)) && Later(k, Orphan(k))
  {
  }
}
