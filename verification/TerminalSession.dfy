/**
 One terminal tab with its session, as a state machine. An `await` in a method splits it:
 what happens after the wait is a happening of its own, so anything may come in between.
 Happenings that do not apply leave the tab as it is.
 */
module TerminalSession {
  import opened Wrappers

  datatype Status = Starting | Running | Exited | Stopped | Failed

  /** Where the one start of the session is: waiting for `open`, for `onExit`, or for its caller to go on. */
  datatype Stage = Idle | Opening | Subscribing | Finishing | Done

  datatype Size = Size(cols: nat, rows: nat)

  /** What measuring the element gives. */
  datatype Measured = Unmeasurable | At(size: Size) | Throws

  datatype Tab = Tab(
    key: nat,
    status: Status,
    exitCode: Option<int>,
    ptyId: Option<nat>,
    beginning: bool,
    stopRequested: bool,
    // the session
    id: Option<nat>,
    everStarted: bool,
    running: bool,
    code: Option<int>,
    lastSize: Size,
    host: Option<nat>,
    disposed: bool,
    stage: Stage,
    opens: nat,      // calls of `transport.open`
    closing: nat,    // `stop` calls waiting for `transport.close`
    stopping: nat)   // `stop` calls whose caller has yet to go on

  function Fresh(key: nat): Tab {
    Tab(key, Starting, None, None, false, false, None, false, false, None, Size(0, 0), None, false, Idle, 0, 0, 0)
  }

  datatype Happening =
    | Mount(host: nat, openThrows: bool, first: Measured, second: Measured, third: Measured, resizeThrows: bool)
    | Fit(m: Measured)
    | Stop
    | Opened(pty: nat, size: Size)
    | OpenFailed
    | Subscribed
    | SubscribeFailed
    | BeginReturns
    | Exit(pty: nat, exitCode: Option<int>)
    | CloseReturns(fails: bool)
    | StopReturns
    | TransportError

  /** The session's state carried over to the tab. */
  function Sync(t: Tab): Tab {
    var u := t.(ptyId := t.id);
    if t.running then u.(status := Running, exitCode := None)
    else if !t.everStarted then u
    else if t.status != Running && t.status != Starting then u
    else if t.code.Some? then u.(exitCode := t.code, status := Exited)
    else u.(exitCode := None, status := if t.stopRequested then Stopped else Exited)
  }

  function Fails(t: Tab): Tab {
    t.(status := Failed)
  }

  /** A measured size that is new is recorded and notified; `Throws` stands for no effect here. */
  function Fits(t: Tab, m: Measured): Tab {
    if m.At? && m.size != t.lastSize then Sync(t.(lastSize := m.size)) else t
  }

  function FitsOrFails(t: Tab, m: Measured): Tab {
    if m.Throws? then Fails(t) else Fits(t, m)
  }

  /** Putting the terminal into its element; a second element is ignored. */
  function MountSession(t: Tab, host: nat, openThrows: bool, m: Measured): Tab {
    if t.disposed || t.host == Some(host) then FitsOrFails(t, m)
    else if t.host.Some? then t
    else if openThrows then Fails(t.(host := Some(host)))
    else FitsOrFails(t.(host := Some(host)), m)
  }

  /** Starting the process, up to the call of `open`; measuring that throws here is told and passed over. */
  function Start(t: Tab, m: Measured, resizeThrows: bool): Tab {
    if t.id.Some? then t.(stage := Finishing)
    else
      var u := if m.Throws? then Fails(t) else t;
      if resizeThrows then Fails(u).(stage := Finishing) else u.(opens := u.opens + 1, stage := Opening)
  }

  function Begin(t: Tab, m: Measured, again: Measured, resizeThrows: bool): Tab {
    if t.beginning || t.status != Starting then t
    else
      var u := t.(beginning := true);
      if m.Throws? then Fails(u) else Start(Fits(u, m), again, resizeThrows)
  }

  /** `listed` says whether the store still has the tab. */
  function React(t: Tab, h: Happening, listed: bool): Tab {
    match h
    case Mount(host, openThrows, first, second, third, resizeThrows) =>
      if !listed then t
      else
        var u := MountSession(t, host, openThrows, first);
        if u.status == Starting then Begin(u, second, third, resizeThrows) else u
    case Fit(m) =>
      if listed && t.host.Some? then Fits(t, m) else t
    case Stop =>
      if !listed then t
      else
        var u := t.(stopRequested := true);
        if u.id == None then u.(stopping := u.stopping + 1) else u.(id := None, closing := u.closing + 1)
    case Opened(pty, size) =>
      if t.stage == Opening then t.(id := Some(pty), lastSize := size, stage := Subscribing) else t
    case OpenFailed =>
      if t.stage == Opening then Fails(t).(stage := Finishing) else t
    case Subscribed =>
      if t.stage == Subscribing then
        Sync(t.(running := true, everStarted := true, code := None)).(stage := Finishing)
      else t
    case SubscribeFailed =>
      if t.stage == Subscribing then Fails(t).(stage := Finishing) else t
    case BeginReturns =>
      if t.stage != Finishing then t
      else if listed then Sync(t).(stage := Done) else t.(stage := Done)
    case Exit(pty, exitCode) =>
      if t.id == Some(pty) && !t.stage.Opening? then
        Sync(t.(id := None, running := false, code := exitCode))
      else t
    case CloseReturns(fails) =>
      if t.closing == 0 then t
      else
        var u := if fails then Fails(t) else t;
        Sync(u.(running := false, code := None)).(closing := t.closing - 1, stopping := t.stopping + 1)
    case StopReturns =>
      if t.stopping == 0 then t else Sync(t).(stopping := t.stopping - 1)
    case TransportError =>
      Fails(t)
  }

  function Dispose(t: Tab): Tab {
    if t.disposed then t else t.(disposed := true, host := None, id := None)
  }

  // ---- what holds of every tab ----

  /**
   The invariant of a tab: `open` is called at most once and only by the one `begin`; a status
   of the process's life needs a process that started; `Stopped` needs our own `stop`.
   */
  predicate TabOk(t: Tab) {
    && t.opens <= 1
    && (t.opens == 1 ==> t.beginning)
    && (t.stage != Idle ==> t.beginning)
    && (t.opens == 0 ==> t.id == None && !t.everStarted && t.stage !in {Opening, Subscribing})
    && (t.stage == Opening ==> t.id == None && !t.everStarted)
    && (t.stage == Subscribing ==> !t.everStarted)
    && (t.running ==> t.everStarted)
    && (t.status in {Running, Exited, Stopped} ==> t.everStarted)
    && (t.exitCode.Some? ==> t.everStarted)
    && (t.status == Stopped ==> t.stopRequested)
  }

  /** What never goes back. */
  predicate TabLater(t: Tab, u: Tab) {
    && u.key == t.key
    && t.opens <= u.opens
    && (t.beginning ==> u.beginning)
    && (t.everStarted ==> u.everStarted)
    && (t.disposed ==> u.disposed)
    && (t.host.Some? ==> u.disposed || u.host == t.host)
    && (t.stopRequested ==> u.stopRequested)
  }

  predicate Keeps(t: Tab, u: Tab) {
    TabOk(u) && TabLater(t, u)
  }

  lemma SyncKeeps(t: Tab)
    requires TabOk(t)
    ensures Keeps(t, Sync(t))
    ensures Sync(t) == t.(ptyId := t.id, status := Sync(t).status, exitCode := Sync(t).exitCode)
  {
  }

  lemma FitsKeeps(t: Tab, m: Measured)
    requires TabOk(t)
    ensures Keeps(t, FitsOrFails(t, m)) && Keeps(t, Fits(t, m))
  {
  }

  lemma MountSessionKeeps(t: Tab, host: nat, openThrows: bool, m: Measured)
    requires TabOk(t)
    ensures Keeps(t, MountSession(t, host, openThrows, m))
  {
    FitsKeeps(t, m);
    FitsKeeps(t.(host := Some(host)), m);
  }

  lemma BeginKeeps(t: Tab, m: Measured, again: Measured, resizeThrows: bool)
    requires TabOk(t)
    ensures Keeps(t, Begin(t, m, again, resizeThrows))
  {
    if !t.beginning && t.status == Starting && !m.Throws? {
      var u := t.(beginning := true);
      FitsKeeps(u, m);
      assert Fits(u, m).opens == 0;
    }
  }

  lemma MountKeeps(t: Tab, h: Happening, listed: bool)
    requires TabOk(t) && h.Mount?
    ensures Keeps(t, React(t, h, listed))
  {
    var u := MountSession(t, h.host, h.openThrows, h.first);
    MountSessionKeeps(t, h.host, h.openThrows, h.first);
    BeginKeeps(u, h.second, h.third, h.resizeThrows);
  }

  lemma StartUpKeeps(t: Tab, h: Happening, listed: bool)
    requires TabOk(t)
    requires h.Opened? || h.OpenFailed? || h.Subscribed? || h.SubscribeFailed? || h.BeginReturns?
    ensures Keeps(t, React(t, h, listed))
  {
  }

  lemma ExitKeeps(t: Tab, pty: nat, exitCode: Option<int>, listed: bool)
    requires TabOk(t)
    ensures Keeps(t, React(t, Exit(pty, exitCode), listed))
  {
    SyncKeeps(t.(id := None, running := false, code := exitCode));
  }

  lemma CloseKeeps(t: Tab, fails: bool, listed: bool)
    requires TabOk(t)
    ensures Keeps(t, React(t, CloseReturns(fails), listed))
  {
    var u := if fails then Fails(t) else t;
    SyncKeeps(u.(running := false, code := None));
  }

  lemma ReactKeeps(t: Tab, h: Happening, listed: bool)
    requires TabOk(t)
    ensures Keeps(t, React(t, h, listed))
  {
    match h {
      case Mount(_, _, _, _, _, _) => MountKeeps(t, h, listed);
      case Fit(m) => FitsKeeps(t, m);
      case Exit(pty, exitCode) => ExitKeeps(t, pty, exitCode, listed);
      case CloseReturns(fails) => CloseKeeps(t, fails, listed);
      case StopReturns => SyncKeeps(t);
      case Stop =>
      case TransportError =>
      case _ => StartUpKeeps(t, h, listed);
    }
  }

  lemma DisposeKeeps(t: Tab)
    requires TabOk(t)
    ensures TabOk(Dispose(t)) && TabLater(t, Dispose(t))
  {
  }

  /** A notification about the size, or about a stop, decides nothing before there was a process. */
  lemma NotificationsDoNotEndATab(t: Tab, h: Happening, listed: bool)
    requires TabOk(t) && !t.everStarted
    requires h.Fit? || h.Stop? || h.StopReturns? || h.BeginReturns? || h == CloseReturns(false)
    ensures React(t, h, listed).status == t.status && React(t, h, listed).exitCode == t.exitCode
  {
  }

  /** Mounting a waiting tab reaches `open` exactly when nothing throws, measured or not. */
  lemma MountOpensIff(t: Tab, h: Happening)
    requires TabOk(t) && h.Mount? && t.status == Starting && !t.beginning && t.host == None && !t.disposed
    ensures React(t, h, true).opens == 1
       <==> !h.openThrows && !h.first.Throws? && !h.second.Throws? && !h.resizeThrows
  {
  }

  /** A tab that is waiting and was never mounted has not opened anything. */
  lemma FreshTab(key: nat)
    ensures TabOk(Fresh(key))
  {
  }

  /** An exit is told with its code while the tab runs, and only for the process the session holds. */
  lemma ExitIsTold(t: Tab, pty: nat, code: Option<int>, listed: bool)
    requires TabOk(t) && t.id == Some(pty) && t.everStarted && t.status == Running
    ensures var u := React(t, Exit(pty, code), listed);
            && u.exitCode == code && u.id == None && u.ptyId == None
            && u.status == if code == None && t.stopRequested then Stopped else Exited
    ensures forall other | other != pty :: React(t, Exit(other, code), listed) == t
  {
  }

  // ---- what becomes of a tab ----

  /** The first mount of a new tab; nothing throws. */
  function Mounted(key: nat, host: nat, first: Measured, second: Measured, third: Measured): Tab {
    React(Fresh(key), Mount(host, false, first, second, third, false), true)
  }

  /** A new tab starts its process once, and runs as soon as its exit can be heard. */
  lemma NewTabRuns(key: nat, host: nat, first: Measured, second: Measured, third: Measured, pty: nat, size: Size)
    requires !first.Throws? && !second.Throws? && !third.Throws?
    ensures var t := Mounted(key, host, first, second, third);
            && Fresh(key).status == Starting && t.status == Starting && t.opens == 1 && t.host == Some(host)
    ensures var t := React(React(Mounted(key, host, first, second, third), Opened(pty, size), true), Subscribed, true);
            && t.status == Running && t.running && t.everStarted && t.exitCode == None
            && t.id == Some(pty) && t.ptyId == Some(pty) && t.lastSize == size && t.opens == 1
  {
    var t := Mounted(key, host, first, second, third);
    assert t.stage == Opening && t.id == None && t.status == Starting;
    var u := React(t, Opened(pty, size), true);
    assert u.stage == Subscribing && u.id == Some(pty);
  }

  /** A tab whose process was started runs when its exit can be heard, whatever it was told meanwhile. */
  lemma SubscribedRuns(t: Tab, listed: bool)
    requires TabOk(t) && t.stage == Subscribing
    ensures var u := React(t, Subscribed, listed);
            u.status == Running && u.running && u.everStarted && u.ptyId == t.id && u.exitCode == None
  {
  }

  /** Stopping a running tab ends it as stopped, without exit code, when the process is closed. */
  lemma StopStops(t: Tab, listed: bool)
    requires TabOk(t) && t.status == Running && t.running && t.id.Some? && t.closing == 0
    ensures var u := React(t, Stop, true);
            && u.status == Running && u.id == None && u.closing == 1 && u.stopRequested
            && var v := React(u, CloseReturns(false), listed);
            && v.status == Stopped && v.exitCode == None && !v.running && v.ptyId == None && v.closing == 0
  {
  }

  /** Something is told as an error. */
  predicate TellsError(h: Happening) {
    match h
    case Mount(_, openThrows, first, second, third, resizeThrows) =>
      openThrows || first.Throws? || second.Throws? || third.Throws? || resizeThrows
    case CloseReturns(fails) => fails
    case OpenFailed => true
    case SubscribeFailed => true
    case TransportError => true
    case _ => false
  }

  /** A failed start is told, and so is every error of the transport. */
  lemma FailureIsTold(t: Tab, listed: bool)
    ensures t.stage == Opening ==> React(t, OpenFailed, listed).status == Failed
    ensures t.stage == Subscribing ==> React(t, SubscribeFailed, listed).status == Failed
    ensures React(t, TransportError, listed).status == Failed
  {
  }

  /** Measuring a mounted tab records the size. */
  lemma FitRecords(t: Tab, m: Measured)
    requires t.host.Some?
    ensures React(t, Fit(m), true).lastSize == if m.At? then m.size else t.lastSize
    ensures !m.At? ==> React(t, Fit(m), true) == t
  {
  }

  /** What a change of status means. */
  predicate ChangeOk(t: Tab, u: Tab, h: Happening) {
    u.status != t.status ==>
      match u.status
      case Starting => false
      case Running => u.running
      case Failed => TellsError(h)
      case _ => t.status in {Starting, Running} && !u.running && u.everStarted
                && (u.status == Stopped <==> u.code == None && u.stopRequested)
  }

  lemma SyncChange(t: Tab, h: Happening)
    requires TabOk(t)
    ensures ChangeOk(t, Sync(t), h)
  {
  }

  lemma MountChange(t: Tab, h: Happening)
    requires TabOk(t) && h.Mount?
    ensures ChangeOk(t, MountSession(t, h.host, h.openThrows, h.first), h)
  {
    if h.first.At? {
      SyncChange(t.(lastSize := h.first.size), h);
      SyncChange(t.(lastSize := h.first.size, host := Some(h.host)), h);
    }
  }

  lemma BeginChange(t: Tab, h: Happening)
    requires TabOk(t) && h.Mount?
    ensures ChangeOk(t, Begin(t, h.second, h.third, h.resizeThrows), h)
  {
    if h.second.At? {
      SyncChange(t.(lastSize := h.second.size, beginning := true), h);
    }
  }

  lemma MountsAndBegins(t: Tab, h: Happening, listed: bool)
    requires TabOk(t) && h.Mount?
    ensures ChangeOk(t, React(t, h, listed), h)
  {
    MountSessionKeeps(t, h.host, h.openThrows, h.first);
    MountChange(t, h);
    BeginChange(MountSession(t, h.host, h.openThrows, h.first), h);
  }

  lemma FitChange(t: Tab, m: Measured, listed: bool)
    requires TabOk(t)
    ensures ChangeOk(t, React(t, Fit(m), listed), Fit(m))
  {
    if m.At? {
      SyncChange(t.(lastSize := m.size), Fit(m));
    }
  }

  lemma StartUpChange(t: Tab, h: Happening, listed: bool)
    requires TabOk(t)
    requires h.Opened? || h.OpenFailed? || h.Subscribed? || h.SubscribeFailed? || h.BeginReturns?
    ensures ChangeOk(t, React(t, h, listed), h)
  {
    SyncChange(t, h);
  }

  /**
   A tab becomes running only with its session, failed only when an error is told, and ended only
   from its life; it never goes back to waiting.
   */
  lemma StatusChanges(t: Tab, h: Happening, listed: bool)
    requires TabOk(t)
    ensures ChangeOk(t, React(t, h, listed), h)
  {
    match h {
      case Mount(_, _, _, _, _, _) => MountsAndBegins(t, h, listed);
      case Fit(m) => FitChange(t, m, listed);
      case Exit(pty, exitCode) => SyncChange(t.(id := None, running := false, code := exitCode), h);
      case CloseReturns(fails) =>
        SyncChange(t.(running := false, code := None), h);
      case StopReturns => SyncChange(t, h);
      case Stop =>
      case TransportError =>
      case _ => StartUpChange(t, h, listed);
    }
  }
}
