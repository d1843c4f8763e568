# Verification of the agent, its codecs and its policies

A Dafny 4.11 model of the parts of the repository that promise something about
long runs, partial failures or other people's bytes. `dafny verify dfyconfig.toml`
checks all of it.

## The parts

| files | what they model |
|---|---|
| `Kernel`, `HostedTable`, `HostedRuns`, `HostedTheorems`, `HostedVerdicts`, `HostedProvider` | the supervisor of hosted processes: its run table and record directory, against a kernel that exits, reaps and reuses pids, and against the death of the agent |
| `PrivilegedShell`, `LibraryReplacement` | replacing a native library: the three `su` scripts as file-system steps with a failure possible at each, and the transaction around them |
| `Server`, `Responses`, `SystemProvider`, `Presence` | the connection protocol for any number of connections, the token comparison, the attendance counter and the idle exit |
| `Frames` | length-prefixed frames |
| `Operations` | the idempotency ledger |
| `ExportStream`, `ExportWire`, `ExportPrinter`, `ExportReaders` | the APK export stream: the printer in the module, the buffered reader of the script and the reader of the agent |
| `PosixLexer`, `DeviceShell` | nested quoting of the command for a hosted binary, against the lexing rules of sections 2.2 and 2.3 of the Shell Command Language in POSIX.1-2017 |
| `Text`, `DevicePaths` | the path normalisers of page, desktop and agent, and the write policies |
| `FilesystemWrite` | measuring a tree before deleting it |
| `ProcText`, `ProcStat`, `ProcNet` | readers of `/proc/<pid>/stat` and of the socket tables |
| `ProbeOutput` | the capped output of a probe |
| `TerminalSession`, `TerminalStore` | the terminal tabs |

Concurrency is a machine over events: an event is what one thread does under one
lock, or between two points where it waits, and a run is any sequence of events
that are possible. Code that changes fields or loops is a class or a method,
proved against the function the machine uses, and where it decides something also
against what it must answer in each case. `Provider.Stop`, for one, equals the
function `StopRun`, `StopIsItsEvents` says that the events of a stop in the machine
leave the same (`StartIsItsEvents`, `RefreshIsItsEvents` and the like do so for the
other methods), and the theorems about every run are about those events. Beside each
"never" there is a "does": verdicts are true and are reached, signals never go astray
and do arrive, nobody gets in without credentials and everybody else is served.
Answers of the kernel, the disk, `su`, sockets and clocks are parameters.

## What the proofs say about the code

Besides the properties that hold, some hold only under a condition. Where it says
"exactly", both directions are proved; the input that breaks the rest is named:

- A record whose start time could not be read says 0 there. Its running process
  is then declared exited by a refresh without child, and gone by `stop`, as soon
  as the start time becomes readable (`ReconcileTruthfulIff`, `StopVerdictIff`). A
  signal still never reaches a stranger. `UnreadableStartIsEnough` is such a run.
- `poll_dead` takes a file it cannot read for a process that is gone. With the start
  time on record, `stop` declares a running process gone exactly after such a look
  (`StopVerdictIff`, `ConclusionIff`); without one, Exited is true at any time of any
  run (`ExitedIsTrue`). `OneFailedLookIsEnough` is the run in which it is not.
- The signal of `stop` to a record without child goes to the process that was checked
  exactly if no new process is given its pid between the check and the signal
  (`DeliveryIsRightIff`; `AtomicityIsNeeded` is a run in which one is). For a held
  child nothing of the kind is needed: its pid stays taken until it is reaped.
- The backup and rollback scripts run without `set -e`, and a `;` follows the first
  `&&` list of the rollback: their `cp` is not checked, and neither is `rm`. All or
  nothing holds exactly when the answers of the commands say that what was renamed onto
  the target were prior or staged bytes, and that a rollback which reports success has
  restored the prior state (`AllOrNothingIff`, `CopiesGood`). Copies that complete are
  enough for that (`AllOrNothing`); `UncheckedBackupLosesTheTarget` is a run in which
  they do not. `RollbackIsExact` says exactly when a reported rollback really happened.
- A verification that fails is remembered like a success, so a repeated operation
  id is answered with that value instead of an error (`RetryReplays`).
- The comment at the printer of the export stream says that names hold no spaces.
  A space in a package name moves the rest of it into the file name
  (`PyRecoversIffNoSpace`); a space in a file name is harmless to the script and
  refused by the agent.
- The printer sends the header before it opens the file. If the file then stops
  short, both readers take what follows for its content, and the script takes the
  end of the stream for `DONE`. The agent has the very files exactly when every
  selected file gets through whole and its limits hold (`ExportReachesTheAgent`), the
  script exactly when no package has a space and at most the last file misses
  something, which is the beginning of the closing line (`ExportReachesTheScript`).
  The end of the stream tells neither: `ShortFileGoesUnnoticed` is a loss only the
  agent notices, `LostFileGoesUnnoticedByBoth` one that nobody notices.
- The file page and the desktop refuse a path that leads above the root, for the same
  reason (`RefusesExactlyEscapes`, `PageAndDesktop`). The agent's own normaliser stops
  such a path at the root instead (`EscapeIsClampedByAgent`).

## Model

| member | source | states |
|---|---|---|
| `HostedTheorems.SignalsHitTheirTarget` | `android-agent/src/provider/hosted.rs:565-714` | in every interleaving of kernel moves, starts, adoptions, refreshes, writes, stops and agent restarts, each signal `stop` delivers goes to the one incarnation its handle was issued for, and never to pid 0 |
| `HostedTheorems.AtomicityIsNeeded` | `android-agent/src/provider/hosted.rs:595-642` | the one atomicity assumed cannot be dropped: a run from the initial state in which a checked process exits, is reaped and its pid is given away makes the signal hit a process no event handed out |
| `HostedTheorems.DeliveryIsRightIff` | `android-agent/src/provider/hosted.rs:595-692` | for everything that can happen between a check and its signal (other processes, other starts, without the atomicity assumed elsewhere): the signal goes to the checked process exactly when no fork and no spawn in between is given its pid |
| `HostedTheorems.CheckedIsAtCheck` | `android-agent/src/provider/hosted.rs:595-642` | the starting point of that theorem is where every run is after a check: the record carries the pid of its incarnation and nobody else has it |
| `HostedTheorems.InBetween` | `android-agent/src/provider/hosted.rs:595-642` | by induction over what happens in between: as long as nobody is given the pid no stranger has it, and once somebody is, the checked process is gone for good |
| `HostedTheorems.StdinIsTruthful` | `android-agent/src/provider/hosted.rs:937-1057` | with the two locked sections of `write` interleaved with everything else: a write handle is held exactly when the record says Open, and a record that stopped saying Open never says it again |
| `HostedTheorems.ShutForever` | `android-agent/src/provider/hosted.rs:718-726` | a handle whose channel is not open stays so in every continuation of a run, restarts included |
| `HostedTheorems.NothingOpenAfterRestart` | `android-agent/src/provider/hosted.rs:1081-1101` | after the agent dies, no handle known before is ever open again |
| `HostedVerdicts.RefreshTellsTheTruth` | `android-agent/src/provider/hosted.rs:1134-1169` | while the kernel keeps moving and other starts spawn and save during a refresh: for records with a readable start time Running means the incarnation was in the process table when the refresh began, Exited that it does not run when it is over |
| `HostedVerdicts.RefreshFindsTheLiving` | `android-agent/src/provider/hosted.rs:1134-1169` | the converse: if no look at the record failed during such a refresh and its start time is on record, a process that runs at its end is said to be Running, and one that was gone at its beginning to have Exited |
| `HostedVerdicts.FoundOutPass` | `android-agent/src/provider/hosted.rs:1134-1169` | the induction behind it: after a refresh without failed look the verdict is not Unknown |
| `HostedVerdicts.ReloadTellsTheTruth` | `android-agent/src/provider/hosted.rs:1059-1110` | the same for records a restarted agent reads back one by one while the kernel keeps moving; a reloaded entry has neither child nor exit code |
| `HostedVerdicts.ReloadFindsTheLiving` | `android-agent/src/provider/hosted.rs:1059-1110` | the converse for records read back after a restart, provided the reading of this one's files did not fail |
| `HostedVerdicts.LoadPass` | `android-agent/src/provider/hosted.rs:1059-1110` | the induction over the loading: every record read so far keeps a verdict that is right about both ends |
| `HostedVerdicts.ReadingIsRight` | `android-agent/src/provider/hosted.rs:1171-1190` | one reading between two moments gives a reloaded record a verdict that is right about both |
| `HostedTheorems.ChildrenAndExitCodes` | `android-agent/src/provider/hosted.rs:1542-1558` | in every reachable state a held child belongs to a spawned record and still owns its pid, and an exit code means a spawned record without child |
| `HostedVerdicts.StopVerdictIff` | `android-agent/src/provider/hosted.rs:565-714` | for all of `stop` (identity check, answer of `kill`, looks of `poll_dead`), in every state with this entry: its conclusion that the process is gone is false only for a look that failed on a running process, and that is so exactly when the start time is on record |
| `HostedVerdicts.ConclusionIff` | `android-agent/src/provider/hosted.rs:565-714` | with the start time on record, one conclusion of `stop` is false exactly when it rests on a look that failed on a running process |
| `HostedVerdicts.ExitedIsTrue` | `android-agent/src/provider/hosted.rs:565-714` | at any time of any run: Exited on a record whose start time was readable means that its process does not run, provided no look of `stop` at it failed while it did |
| `HostedVerdicts.StopDelivers` | `android-agent/src/provider/hosted.rs:565-714` | `stop` does reach its target: after any run, a process that runs under an entry with its start time on record can be checked and signalled, and the signal is delivered to it |
| `HostedVerdicts.OneFailedLookIsEnough` | `android-agent/src/provider/hosted.rs:1567-1584` | without that proviso it fails: a run from the initial state in which one unreadable look ends the record of a running child, gives up its child and deletes its file |
| `HostedVerdicts.UnreadableStartIsEnough` | `android-agent/src/provider/hosted.rs:599-617` | nor does it hold without a recorded start time: a run from the initial state in which a child started with an unreadable start time is taken for a stranger by `stop`, which sends nothing, ends the record and gives up child and file while the process runs on |
| `HostedTable.PollVerdictIff` | `android-agent/src/provider/hosted.rs:1567-1584` | a look that says dead can be trusted for every kernel, also after pid reuse, exactly when it read something |
| `HostedTable.ReadLookIsExact` | `android-agent/src/provider/hosted.rs:1567-1584` | a look that reads something says dead exactly when the process is a zombie |
| `HostedTable.PrintedLineIsTrue` | `android-agent/src/provider/hosted.rs:1573-1575` | the line the kernel prints, whatever the process is called, is a true look |
| `HostedTheorems.BornIsIssued` | `android-agent/src/provider/hosted.rs:306-532` | a handle is bound once, by the start or adoption that handed it out, and keeps that incarnation for the rest of the run |
| `HostedTheorems.StepLater` | `android-agent/src/provider/hosted.rs:565-714` | no section of the agent and no kernel move brings an incarnation back or makes a zombie run again |
| `HostedVerdicts.RefreshPass` | `android-agent/src/provider/hosted.rs:1134-1169` | the induction over one refresh pass: every entry refreshed so far keeps a verdict that is right about both ends of the pass |
| `HostedTable.ReconcileTruthfulIff` | `android-agent/src/provider/hosted.rs:1171-1190` | the verdict on a record without child is no false claim, for every kernel and reading, exactly when the recorded start time is the real one |
| `HostedTable.RefreshTruthful` | `android-agent/src/provider/hosted.rs:1134-1169` | one entry refreshed between two moments: Running speaks for the earlier one, Exited for the later one |
| `HostedTable.RefreshFindsOut` | `android-agent/src/provider/hosted.rs:1134-1190` | with the start time on record a refresh is at a loss exactly when its look failed; otherwise it says Running exactly of a process that is there (of a held child: that runs), and keeps the exit code of a child that ended |
| `HostedTable.ReloadFindsOut` | `android-agent/src/provider/hosted.rs:1171-1190` | the same for a record read back |
| `HostedTable.HeldChildTruthful` | `android-agent/src/provider/hosted.rs:1136-1160` | a held child needs no readable start time; it is Exited exactly when `try_wait` says so |
| `HostedTable.StopChecksIdentity` | `android-agent/src/provider/hosted.rs:577-642` | whenever the check of `stop` lets a signal through, the recorded incarnation is there, pid 0 is excluded, the caller's expected pid matches, and a record without child was verified by its start time |
| `HostedTable.StopReachesIff` | `android-agent/src/provider/hosted.rs:577-642` | asked for the recorded pid or none: the signal is let through exactly for a held child or a process that is there and readable, "gone" is answered exactly when it is gone and that could be seen, and refused exactly when an existing file cannot be read |
| `HostedTable.WriteTellsTheTruth` | `android-agent/src/provider/hosted.rs:961-1008` | for a running child the pipe is handed out exactly when the record says Open; a refusal because it is gone is true |
| `HostedRuns.StepKeeps` | `android-agent/src/provider/hosted.rs:252-714` | the invariant of the whole provider (entries, disk, pending starts, held children apart, pending stop, delivered signals) survives every event |
| `HostedRuns.RunKeeps` | `android-agent/src/provider/hosted.rs:252-714` | and so every possible run |
| `HostedRuns.KernelEventKeeps` | `android-agent/src/provider/hosted.rs:1171-1190` | fork, exit and reaping by others keep it: a held child keeps its pid |
| `HostedRuns.LoadKeeps` | `android-agent/src/provider/hosted.rs:1059-1110` | reading back one record, and taking over all that were read, keeps it |
| `HostedRuns.SpawnKeeps` | `android-agent/src/provider/hosted.rs:306-329` | a spawned child is a new incarnation, different from every child already held |
| `HostedRuns.InsertKeeps` | `android-agent/src/provider/hosted.rs:370-379` | entering the spawned run into the table later keeps it |
| `HostedRuns.AdoptKeeps` | `android-agent/src/provider/hosted.rs:480-532` | adopting a process, with readings that may be old, keeps it |
| `HostedRuns.RefreshKeeps` | `android-agent/src/provider/hosted.rs:1134-1169` | refreshing one entry keeps it, also when that gives up a child |
| `HostedRuns.StopBeginKeeps` | `android-agent/src/provider/hosted.rs:577-641` | the check of `stop` keeps it and leaves no other user of the pid behind |
| `HostedRuns.StopSignalKeeps` | `android-agent/src/provider/hosted.rs:642-692` | the signal of `stop` keeps it: what was delivered went to the right incarnation |
| `HostedRuns.StopEndKeeps` | `android-agent/src/provider/hosted.rs:692-713` | the answer of `stop`, with the reaping, keeps it |
| `HostedRuns.WriteTakeKeeps` | `android-agent/src/provider/hosted.rs:951-1008` | the first section of `write` keeps it |
| `HostedRuns.WriteEndKeeps` | `android-agent/src/provider/hosted.rs:1009-1057` | the second section of `write`, and `drop_stdin`, keep it, also when the handle is gone |
| `HostedRuns.PersistKeeps` | `android-agent/src/provider/hosted.rs:1112-1132` | writing, not writing or tearing a record file, with pruning, keeps every file true to its handle |
| `HostedProvider.Provider.EnsureLoaded` | `android-agent/src/provider/hosted.rs:1059-1110` | the loop over the directory yields one entry for every readable record, without child, exit code and open channel; it is Running exactly when its pid has the recorded start time, and Unknown exactly for pid 0 or a process that is there but cannot be read; an unreadable directory, or a second call, changes nothing |
| `HostedProvider.Provider.PersistRecord` | `android-agent/src/provider/hosted.rs:1112-1132` | the directory afterwards, for a complete, a skipped and a torn write |
| `HostedProvider.Provider.Start` | `android-agent/src/provider/hosted.rs:306-385` | the entry, the record file and the reply of a spawned child: which channel it has follows from what was asked for and whether there is a pipe |
| `HostedProvider.Provider.Adopt` | `android-agent/src/provider/hosted.rs:480-532` | an existing live record of the pid is answered with its handle and nothing changes; otherwise one new entry |
| `HostedProvider.Provider.Refresh` | `android-agent/src/provider/hosted.rs:1134-1169` | every entry exactly once, whatever the order: a held child is Running, Exited (with its code) or Unknown as `try_wait` says; any other record is Running exactly when its pid has the recorded start time, Unknown exactly for pid 0 or a process that is there but cannot be read |
| `HostedProvider.Provider.Stop` | `android-agent/src/provider/hosted.rs:565-714` | for every input: when it must refuse for the expected pid, when it must find the process gone, when it must refuse as unverifiable, and that it otherwise signals that pid; the answer for every result of `kill`, whether the identity was verified and whether the record was dropped; table and directory afterwards |
| `HostedProvider.Provider.CheckIdentity` | `android-agent/src/provider/hosted.rs:577-641` | a mismatch exactly for another expected pid; a signal exactly when the start time is the recorded one, or cannot be read and the child is held; unverifiable exactly when it cannot be read, the process is there and no child is held; otherwise gone |
| `HostedProvider.Provider.SignalRun` | `android-agent/src/provider/hosted.rs:642-713` | table, directory, answer and signalled pid from the signal on |
| `HostedProvider.Provider.PollDead` | `android-agent/src/provider/hosted.rs:1567-1584` | dead exactly when one of the looks before the deadline says so |
| `HostedProvider.Provider.SendSignal` | `android-agent/src/provider/process.rs:580-595` | a pid that is no positive `pid_t` never reaches `kill` |
| `HostedProvider.Provider.BeginWrite` | `android-agent/src/provider/hosted.rs:951-1008` | the pipe is handed out exactly when no child has ended, the record says Open and the handle is held; a finished child is reaped with its exit code, anything else is left alone |
| `HostedProvider.Provider.EndWrite` | `android-agent/src/provider/hosted.rs:1028-1057` | closing turns the record to Once and drops the handle, and is persisted |
| `HostedProvider.Provider.DropStdin` | `android-agent/src/provider/hosted.rs:718-740` | a broken pipe turns the record to the given mode and drops the handle |
| `HostedProvider.Provider.Forget` | `android-agent/src/provider/hosted.rs:1561-1565` | the record file of the handle goes, or stays when it cannot be removed |
| `HostedProvider.StopIsItsEvents` | `android-agent/src/provider/hosted.rs:565-714` | whatever the check decides, the events of a stop in the machine leave exactly the table, the directory and the number of signals that the method leaves |
| `HostedProvider.StopLeavesEntry` | `android-agent/src/provider/hosted.rs:565-714` | `stop` leaves an ended entry without child, with the code of a child it reaped, exactly when it reports the record as dropped; otherwise it leaves the entry alone |
| `HostedProvider.StartIsItsEvents` | `android-agent/src/provider/hosted.rs:306-385` | the three events of a start leave what the method leaves |
| `HostedProvider.AdoptIsItsEvent` | `android-agent/src/provider/hosted.rs:480-532` | so does the event of an adoption |
| `HostedProvider.RefreshIsItsEvents` | `android-agent/src/provider/hosted.rs:1134-1169` | so do the events of a refresh, in any order of the entries |
| `HostedProvider.WriteIsItsEvents` | `android-agent/src/provider/hosted.rs:951-1057` | so do the two sections of `write` |
| `HostedProvider.WriteEndsAreEvents` | `android-agent/src/provider/hosted.rs:951-1057` | and its other ends: no pipe, a finished child, a broken pipe |
| `HostedProvider.LoadIsItsEvents` | `android-agent/src/provider/hosted.rs:1059-1110` | so do the events that read the records back |
| `HostedProvider.PollPart` | `android-agent/src/provider/hosted.rs:1567-1584` | the looks as events leave what the loop answers |
| `HostedProvider.SignalPart` | `android-agent/src/provider/hosted.rs:642-713` | the same for the part from the signal on |
| `Kernel.LaterTransitive` | `android-agent/src/provider/hosted.rs:1192-1206` | "some time after" composes: an incarnation that has left never comes back within a boot |
| `Kernel.ForkLater` | `android-agent/src/provider/hosted.rs:1192-1206` | a fork with ticks never used for that pid keeps the past what it was |
| `Kernel.MovesLater` | `android-agent/src/provider/hosted.rs:1542-1558` | exit, reaping, letting a child go and the death of the agent only move forward |
| `Kernel.LetGoIs` | `android-agent/src/provider/hosted.rs:1546-1558` | a child handle given up after its end frees the pid; given up before, it leaves the process to whoever reaps orphans |
| `ProbeOutput.Sink.Accept` | `android-agent/src/provider/hosted.rs:1707-1717` | a chunk is counted whole and kept as far as the cap allows |
| `ProbeOutput.Sink.PumpRead` | `android-agent/src/provider/hosted.rs:1695-1722` | for any chunks: the sink keeps exactly the first 65536 bytes of what was read and counts all of it; it reads on until the stream closes or it is cut off |
| `ProbeOutput.Truncated` | `android-agent/src/provider/hosted.rs:903-905` | the flag is set exactly when stdout or stderr exceeded the cap, that is when something was dropped |
| `LibraryReplacement.AllOrNothingIff` | `android-agent/src/provider/package.rs:438-664` | for every answer of every command, scripts cut off anywhere: the target holds its complete prior state or the complete staged bytes at every moment, success leaves the staged bytes and a reported rollback the prior state, exactly when the install step is not reached or the answers show the renamed bytes to be such bytes |
| `LibraryReplacement.RollbackOutcome` | `android-agent/src/provider/package.rs:652-664` | from the answers alone: what a rollback leaves in the target, and exactly when its step reports success |
| `LibraryReplacement.AllOrNothing` | `android-agent/src/provider/package.rs:438-664` | in particular, if every copy that runs completes (and `rm` works), all or nothing holds however the scripts are cut off or fail: at every moment the target holds its complete prior state or the complete staged bytes; success leaves the staged bytes; a successful rollback step leaves the prior state |
| `LibraryReplacement.SuccessMeansInstalled` | `android-agent/src/provider/package.rs:589-648` | with no promise from any command: a reply of success means the target holds exactly the staged bytes |
| `LibraryReplacement.ReportIsTrue` | `android-agent/src/provider/package.rs:438-648` | from the answers alone: exactly when the operation succeeds and when its verification fails; what is remembered then, with the true verdict on the rollback and all steps |
| `LibraryReplacement.RollbackIsListed` | `android-agent/src/provider/package.rs:581-616` | a rollback is in the step list exactly when one was made, with its true flag |
| `LibraryReplacement.StepsOfCheckedPart` | `android-agent/src/provider/package.rs:446-575` | which steps are listed, in which order and with which flags, for every way to stop before the install script |
| `LibraryReplacement.StepsOfInstall` | `android-agent/src/provider/package.rs:576-648` | the same from the install script on, with reply and remembered value |
| `LibraryReplacement.EarlyFailureTouchesNothing` | `android-agent/src/provider/package.rs:453-566` | a failure before the install step leaves the target untouched at every moment |
| `LibraryReplacement.RollbackIsExact` | `android-agent/src/provider/package.rs:652-664` | after a rollback step that reports success the prior state is back exactly when the answers say so: the `cp` of the rollback left the prior bytes (or `install` had), or nothing was renamed or the `rm` worked; if the rollback copied its backup, exactly when the `cp` of the backup had saved the prior bytes |
| `LibraryReplacement.DiskAtRollback` | `android-agent/src/provider/package.rs:567-605` | target, temporary file and backup when the rollback begins, from the answers of the two scripts before it |
| `PrivilegedShell.InstallEffect` | `android-agent/src/provider/privileged.rs:41-50` | the install script, stopped anywhere, from its answers alone: what is in the target and in the temporary file, and that nothing else changes |
| `LibraryReplacement.RetryReplays` | `android-agent/src/provider/package.rs:440-443` | a repeated operation id touches nothing and repeats the remembered value, also that of a failed verification |
| `LibraryReplacement.UncheckedBackupLosesTheTarget` | `android-agent/src/provider/privileged.rs:70-72` | the unchecked `cp` of the backup matters: a full device, a failed install and a rollback that reports success together lose the target |
| `LibraryReplacement.BackupPhase` | `android-agent/src/provider/package.rs:531-559` | readers of the target never notice the backup, the staged file stays, and the step succeeds exactly when its last command does and the reply arrives |
| `LibraryReplacement.RollbackPhase` | `android-agent/src/provider/package.rs:652-664` | if the target is whole before a rollback, readers see it whole all along exactly when it is whole afterwards |
| `LibraryReplacement.FromInstallOn` | `android-agent/src/provider/package.rs:567-648` | from the install step on, readers see a whole target all along exactly when what `install` renamed and what is left at the end are whole; success is reported exactly when the staged bytes were renamed and confirmed |
| `LibraryReplacement.Device.RunPrivileged` | `android-agent/src/provider/privileged.rs:287-327` | a script counts as done exactly when its reply arrives with status 0 and its sentinel line |
| `LibraryReplacement.Device.RollBack` | `android-agent/src/provider/package.rs:652-664` | rollback runs the restoring or the removing script and reports its sentinel |
| `LibraryReplacement.Device.ReplaceNativeLibrary` | `android-agent/src/provider/package.rs:438-649` | the operation performed step by step on the device equals the transaction function: reply, steps, remembered value, disk and every disk a reader could see; after a failed verification the remembered value says whether the rollback worked |
| `LibraryReplacement.Device.InstallVerified` | `android-agent/src/provider/package.rs:567-648` | the same from the atomic install on |
| `PrivilegedShell.InstallAtomic` | `android-agent/src/provider/privileged.rs:41-50` | the install script, stopped anywhere: if a `cp` that claims success is complete, the target shows its old content or the staged content, and the sentinel only follows the rename |
| `PrivilegedShell.InstallSeen` | `android-agent/src/provider/privileged.rs:41-50` | without any such promise: which contents readers of the target can see, and exactly when the script is accepted |
| `PrivilegedShell.BackupEffect` | `android-agent/src/provider/privileged.rs:70-72` | the backup script touches nothing but the backup; what it saves is what its unchecked `cp` leaves; it is accepted whatever that is |
| `PrivilegedShell.RestoreEffect` | `android-agent/src/provider/privileged.rs:55-63` | the restoring rollback from its answers: what it renames onto the target, what readers can see, and exactly when it is accepted; without a backup nothing happens and the sentinel is missing |
| `PrivilegedShell.RemoveEffect` | `android-agent/src/provider/privileged.rs:64-66` | the removing rollback: the target goes exactly when `rm` works, and the sentinel looks at the last command only |
| `Server.LiveIsExact` | `android-agent/src/presence.rs:38-61` | for any number of concurrent connections and any interleaving the counter equals the number of connections past a successful hello and not yet ended |
| `Server.NothingBeforeHello` | `android-agent/src/server.rs:33-58` | nothing but hello is dispatched before its connection authenticated, which takes a first request that is a hello with the configured token and version 1 on offer |
| `Server.ResponsesMatchRequests` | `android-agent/src/server.rs:22-128` | in every run the output of a connection decodes to the texts of its completed responses, in some order, at most one for each request read; each carries the id of its request and exactly what became of it: the result or error of the router, or the error for a missing or second hello, a wrong version, no time or a missed deadline |
| `Server.ServedIff` | `android-agent/src/server.rs:33-58` | a connection is served, and counted, exactly when its first request is a hello of this version with time, the configured token and this version on offer, answered in time |
| `Server.RequestIsAnswered` | `android-agent/src/server.rs:61-128` | a request on a served connection can always be run and answered; its frame goes out with the router's result, or with the error that applies; it reaches the router exactly with this version and time to answer |
| `Server.CloseEnds` | `android-agent/src/server.rs:89-94` | a connection that ends is no longer counted and nothing more comes out of it |
| `Responses.ReadBack` | `android-agent/src/server.rs:134-143` | id, outcome and body are read back from the text of a response |
| `Server.CountClients` | `android-agent/src/presence.rs:38-61` | the counter, taken and dropped by the connections in any order, is the number of connections being served |
| `Server.AttendsAndLeaves` | `android-agent/src/server.rs:55-58` | the counter of the machine moves exactly when a connection takes or drops its attendance, and is never below what is dropped |
| `Server.RunKeeps` | `android-agent/src/server.rs:22-94` | the invariant behind these holds in every run |
| `Server.StepKeeps` | `android-agent/src/server.rs:22-94` | and survives every event |
| `Server.LiveKept` | `android-agent/src/presence.rs:38-61` | the counter follows the set of serving connections through every event |
| `Server.LogOkKept` | `android-agent/src/server.rs:33-58` | the order of authentication and dispatch survives every event |
| `Server.ConnKept` | `android-agent/src/server.rs:22-94` | the bookkeeping of one connection (requests, pending tasks, responses, output) survives every event on it |
| `Server.PutKeeps` | `android-agent/src/server.rs:134-143` | a response written under the writer lock keeps the output a stream of whole frames |
| `SystemProvider.ConstantTimeEq` | `android-agent/src/provider/system.rs:124-133` | the comparison loop on machine words is true exactly for equal tokens |
| `SystemProvider.Accumulate` | `android-agent/src/provider/system.rs:127-131` | after the loop the accumulator is zero exactly when it started so and every position of the longer token agrees |
| `SystemProvider.Hello` | `android-agent/src/provider/system.rs:30-52` | hello is accepted exactly with equal token bytes and version 1 on offer; a wrong token is reported before a wrong version |
| `Presence.DueIsIdle` | `android-agent/src/presence.rs:76-83` | after any samples with nondecreasing times `observe` is true exactly when some all-zero tail of the samples spans at least the grace |
| `Presence.ZeroSinceIsRunStart` | `android-agent/src/presence.rs:76-83` | the remembered time is that of the first sample of the trailing run of zeros |
| `Presence.IdleExit.Observe` | `android-agent/src/presence.rs:76-83` | the field update computes that property of the history |
| `Presence.WaitUntilShouldExit` | `android-agent/src/presence.rs:96-104` | the loop returns at the first sample at which nobody has been there for the grace, and never otherwise |
| `Presence.ExitsInTime` | `android-agent/src/presence.rs:96-104` | if the last client leaves at t, nobody returns and samples are at most d apart, the loop stops by t + grace + 2d |
| `Frames.RoundTrip` | `agent-protocol/src/frame.rs:21-66` | for any list of payloads of at most 8 MiB, decoding the concatenated frames returns the list and stops at the end of the stream |
| `Frames.Truncation` | `agent-protocol/src/frame.rs:53-61` | cutting the stream anywhere yields exactly the frames that are complete in what is left, then an end-of-stream error |
| `Frames.DecodedIsEncoded` | `agent-protocol/src/frame.rs:53-61` | conversely, on any bytes at all, what was decoded is an encoded prefix of them |
| `Frames.DecodeStream` | `agent-protocol/src/frame.rs:53-61` | frames are read back one by one whatever follows them |
| `Frames.StreamAppend` | `agent-protocol/src/frame.rs:37-46` | writing one more frame appends it to the stream |
| `Frames.BigEndianOf` | `agent-protocol/src/frame.rs:21-31` | the length prefix is a bijection between four bytes and 32-bit lengths |
| `Frames.BigEndian` | `agent-protocol/src/frame.rs:21-31` | the prefix is the length in base 256, most significant byte first |
| `Frames.EncodeFrame` | `agent-protocol/src/frame.rs:21-31` | a payload within the limit becomes its frame, a larger one an error |
| `Frames.Reader.ReadExact` | `agent-protocol/src/frame.rs:53-61` | exactly n bytes or an error at the end of the stream |
| `Frames.Reader.ReadFrame` | `agent-protocol/src/frame.rs:53-61` | the first four bytes, most significant first, are the length, checked before the payload is read; then exactly that many bytes, or the error that applies |
| `Frames.Reader.ReadAll` | `android-agent/src/server.rs:61-70` | reading until it fails yields the decoding of the stream |
| `ExportPrinter.ExportReachesTheScript` | `android-zygisk/applist/get_applist.py:114-140` | for every table, request and disk: the script ends well with exactly the selected files if and only if no package has a space and at most the last file misses something, which is the beginning of `DONE` and its line end; when every selected file gets through it ends well, with the very files exactly when no package has a space |
| `ExportPrinter.ExportReachesTheAgent` | `android-agent/src/provider/zygisk.rs:1287-1355` | for every table, package and disk: the agent ends well with exactly the selected files if and only if every one of them gets through whole and names, sizes and total are within its limits |
| `ExportPrinter.ShortFileGoesUnnoticed` | `android-zygisk/applist/jni/main.cpp:264-316` | a five-byte file that cannot be opened after it was found swallows the `DONE` line: the script reports a good file that holds it, the agent an end too early |
| `ExportPrinter.LostFileGoesUnnoticedByBoth` | `android-zygisk/applist/jni/main.cpp:264-316` | a file that cannot be opened and is as long as the next file with its header: script and agent both accept one file that holds the other |
| `ExportPrinter.PrintsTheWire` | `android-zygisk/applist/jni/main.cpp:293-321` | what is printed row by row is the wire form of the selected files, each as far as it gets through |
| `ExportPrinter.SelectedIff` | `android-zygisk/applist/jni/main.cpp:298-317` | a file is selected exactly when some row has its package and path, everything or that package was asked for, and the file is there and not empty |
| `ExportPrinter.SelectedInOrder` | `android-zygisk/applist/jni/main.cpp:293-318` | files come in the order of the table |
| `ExportPrinter.TableReadBack` | `android-zygisk/applist/jni/main.cpp:293-300` | the printer finds exactly the rows that were written into the table |
| `ExportPrinter.HelperFailureIsTold` | `android-zygisk/applist/jni/main.cpp:282-287` | without a table both readers report the module's error and take no file |
| `ExportPrinter.Transmission` | `android-zygisk/applist/jni/main.cpp:264-316` | the transfers are whole exactly when every selected file gets through, and every header is one line |
| `ExportWire.AgentRecoversIff` | `android-agent/src/provider/zygisk.rs:1287-1355` | for every list of transfers: exactly when the agent has the very files, by counting the bytes it uses up |
| `ExportWire.ScriptRecoversIff` | `android-zygisk/applist/get_applist.py:114-140` | for every list of transfers: exactly when the script has the very files |
| `ExportWire.AgentUsesUp` | `android-agent/src/provider/zygisk.rs:1287-1355` | on any stream that ends with a line, the printed form of the files the agent takes is no longer than the stream |
| `ExportWire.ScriptUsesUp` | `android-zygisk/applist/get_applist.py:114-140` | the same for the script, up to the closing line |
| `ExportWire.EarlyLossIsFatal` | `android-zygisk/applist/get_applist.py:114-140` | if a file that is not the last misses anything, the files do not come out right |
| `ExportWire.LastLossIff` | `android-zygisk/applist/get_applist.py:121-122` | what the last file may miss is exactly what the closing line supplies |
| `ExportWire.LostFileGoesUnnoticed` | `android-agent/src/provider/zygisk.rs:1287-1355` | the input on which both readers accept the wrong file |
| `ExportWire.PyHeaderIsLong` | `android-zygisk/applist/get_applist.py:127-128` | a line that is read as a header is no shorter than the printed one |
| `ExportPrinter.RowsAreClean` | `android-zygisk/applist/jni/main.cpp:293-318` | neither field of a row contains a line end |
| `ExportPrinter.ExportFiles` | `android-zygisk/applist/jni/main.cpp:281-323` | the walk over the table, which cuts the buffer in place, prints exactly the selected files of its rows and `DONE`, or the error line |
| `ExportPrinter.PrintRow` | `android-zygisk/applist/jni/main.cpp:298-317` | one row, cut in place: the header and what gets through of the file, or nothing |
| `ExportPrinter.CutLine` | `android-zygisk/applist/jni/main.cpp:294-297` | the next line end is found and overwritten, and what follows is untouched |
| `ExportPrinter.StrChr` | `android-zygisk/applist/jni/main.cpp:295-298` | the search stops at the first occurrence before the end of the C string |
| `ExportPrinter.Matches` | `android-zygisk/applist/jni/main.cpp:303-306` | the filter loop says yes exactly when everything or this package was asked for |
| `ExportPrinter.BaseName` | `android-zygisk/applist/jni/main.cpp:310-311` | the name is the longest end of the path without a slash |
| `ExportStream.PyReadsStream` | `android-zygisk/applist/get_applist.py:114-140` | whatever the contents hold (line ends, `F `, `DONE`), the script's reading of a printed stream is the printed files, with a package name cut at its first space |
| `ExportStream.PyRecoversIffNoSpace` | `android-zygisk/applist/get_applist.py:126-128` | it is the very files exactly when no package name contains a space |
| `ExportStream.AcceptedIsReadAlike` | `android-agent/src/provider/zygisk.rs:1287-1355` | on any stream at all: what the agent accepts, the script reads as the same files; all are of the requested package with safe names, and sizes and total are within the limits |
| `ExportStream.AgentTakesIff` | `android-agent/src/provider/zygisk.rs:1287-1355` | on a printed stream the agent accepts exactly when every file is of its package, safely named and within the limits, and then takes all of it |
| `ExportStream.HeaderVerdict` | `android-agent/src/provider/zygisk.rs:1306-1337` | what the agent makes of any header line, defect by defect and with its limits; the script takes all of them |
| `ExportStream.RustReadsStream` | `android-agent/src/provider/zygisk.rs:1287-1355` | within the limits the agent recovers the very files |
| `ExportStream.FieldsReadBack` | `android-agent/src/provider/zygisk.rs:1796-1819` | the header fields read back are the size, and the package and name cut at the first space of the package |
| `ExportStream.ShownIffNoSpace` | `android-zygisk/applist/get_applist.py:126-128` | the cut changes nothing exactly when the package has no space |
| `ExportReaders.CmdExport` | `android-zygisk/applist/get_applist.py:114-140` | for any splitting of the stream into chunks the buffered loop ends with the decoding of the whole stream, and its byte total is the sum of the sizes |
| `ExportReaders.ReadLine` | `android-zygisk/applist/get_applist.py:36-44` | for any chunks: the first line of buffer and stream, and what follows it |
| `ExportReaders.ReadExact` | `android-zygisk/applist/get_applist.py:47-54` | for any chunks: exactly n bytes and the rest, or everything when the stream is shorter |
| `ExportReaders.ExportAndRead` | `android-zygisk/applist/get_applist.py:104-140` | a printed stream of files without spaces in package names arrives unchanged, however it is chopped up |
| `ExportReaders.Staging.StageExport` | `android-agent/src/provider/zygisk.rs:1287-1355` | for any chunks: staged list, total and error are those of the decoding of the whole stream; on success the directory holds exactly the files, and it never holds anything short of one |
| `ExportReaders.Staging.NextLine` | `android-agent/src/provider/zygisk.rs:1839-1858` | the byte-by-byte loop reads the line the specification names, with the length check in its place |
| `ExportReaders.Staging.ReadExactInto` | `android-agent/src/provider/zygisk.rs:1860-1887` | for any chunks: the file grows by exactly the next bytes, or the stream was too short |
| `ExportReaders.Staging.StageFile` | `android-agent/src/provider/zygisk.rs:1338-1347` | a file is complete, or removed again |
| `ExportReaders.Staging.NextStep` | `android-agent/src/provider/zygisk.rs:1306-1337` | one line and the checks on it, as one step of the decoding |
| `Operations.LookupIsExact` | `android-agent/src/provider/operations.rs:51-58` | the bounded ledger answers like the unbounded memory whenever the result is at most ten minutes old and at most 255 other ids are at least as recent, and never answers anything else |
| `Operations.PruneKeeps` | `android-agent/src/provider/operations.rs:81-97` | pruning at any later time, ties broken in any way, keeps the ledger faithful and within 256 entries |
| `Operations.RecordKeeps` | `android-agent/src/provider/operations.rs:60-69` | recording keeps it faithful to the longer history |
| `Operations.KeptAreNewest` | `android-agent/src/provider/operations.rs:88-96` | what survives the cap are 256 entries, none older than one that was dropped |
| `Operations.Ledger.Remember` | `android-agent/src/provider/operations.rs:60-69` | the ledger stands for the history with the new value, and is within its cap |
| `Operations.Ledger.Lookup` | `android-agent/src/provider/operations.rs:42-49` | inside the window the last remembered value, and only ever that |
| `Operations.Ledger.Prune` | `android-agent/src/provider/operations.rs:81-97` | what is left is the young entries, or 256 of the newest of them |
| `Operations.Ledger.NewestFirstOrder` | `android-agent/src/provider/operations.rs:88-93` | the ids sorted by falling time, each once |
| `Operations.Ledger.RemoveAll` | `android-agent/src/provider/operations.rs:94-96` | exactly the listed ids are removed |
| `Operations.Operator.Run` | `android-agent/src/provider/activity.rs:201-247` | inside the window nothing is executed; nothing is left out but what is answered with the last remembered result of that id, marked as replayed; everything else is executed once, answered with what the device said and remembered if it worked |
| `Operations.RunAll` | `android-agent/src/provider/operations.rs:42-97` | at most once, over any run of calls: a call is carried out unless it gets the result of an earlier one of the same operation; within ten minutes of a remembered result, with fewer than 256 other operations since, the operation is never carried out again |
| `Operations.StillCovered` | `android-agent/src/provider/operations.rs:81-97` | why: until then its result is among the newest 256 of the unbounded memory |
| `Operations.MemoryGrows` | `android-agent/src/provider/operations.rs:60-69` | the unbounded memory always holds the last remembered result of each operation of the run |
| `FilesystemWrite.Measure` | `android-agent/src/provider/filesystem_write.rs:389-415` | the work list ends; on a readable tree it is exact up to 20000 entries (count and saturated bytes) and says 20001 beyond; where it is exact, everything was readable |
| `FilesystemWrite.MeasureEntries` | `android-agent/src/provider/filesystem_write.rs:398-413` | one directory: counted and its directories pushed, keeping the account of what is left |
| `FilesystemWrite.NextEntry` | `android-agent/src/provider/filesystem_write.rs:400-411` | looking at an entry keeps counted plus uncounted equal to the whole tree |
| `FilesystemWrite.CountEntries` | `android-agent/src/provider/filesystem_write.rs:378-386` | the number of entries, never looking further than one beyond the cap |
| `FilesystemWrite.Remove` | `android-agent/src/provider/filesystem_write.rs:134-201` | a deletion is attempted exactly on a target that passes the checks, with the reason of every refusal; the cap refuses exactly the oversized trees, and the reported bytes are the size of the tree |
| `DevicePaths.NormalisersAgree` | `src/lib/deviceFsPolicy.ts:21-33` | wherever the file page has an answer it is the agent's, segment by segment, without empty, `.` or `..` segments |
| `DevicePaths.RefusesExactlyEscapes` | `src/lib/deviceFsPolicy.ts:25-28` | the file page refuses exactly the paths that at some point lead above the root |
| `DevicePaths.NormalFormIsFixed` | `src/lib/deviceFsPolicy.ts:21-33` | normalising twice is normalising once |
| `DevicePaths.DotVanishes` | `src/lib/deviceFsPolicy.ts:24` | an empty or dot segment anywhere in a path changes nothing, for both walks |
| `DevicePaths.UpCancels` | `src/lib/deviceFsPolicy.ts:25-31` | a name and the `..` behind it cancel out anywhere in a path, for both walks |
| `DevicePaths.RenderIsNormal` | `src/lib/deviceFsPolicy.ts:32` | clean segments survive being written out and normalised |
| `DevicePaths.StringTestIsPrefix` | `src/lib/deviceFsPolicy.ts:41` | equal or starting with root and slash is exactly the segment-wise prefix test of `Path::starts_with` |
| `DevicePaths.EscapeIsClampedByAgent` | `android-agent/src/provider/filesystem_write.rs:296-315` | where the two differ: a path above the root is refused by one and stopped at the root by the other |
| `DevicePaths.WriteDenied` | `src/lib/deviceFsPolicy.ts:36-44` | denied as not absolute, as escaping, or as outside exactly when it is; allowed exactly when the agent's lexical check of the same roots allows it |
| `DevicePaths.NormalizeOnDesktop` | `src-tauri/src/services/fs_policy.rs:47-59` | the loop of the desktop computes the same refusing walk |
| `DevicePaths.CheckWritableOnDesktop` | `src-tauri/src/services/fs_policy.rs:62-73` | what the desktop enforces, with the path it acts on |
| `DevicePaths.PageAndDesktop` | `src-tauri/src/services/fs_policy.rs:62-73` | the page offers a change exactly when the desktop allows it, and refuses with the same reason |
| `DevicePaths.NormalizeDevicePath` | `src/lib/deviceFsPolicy.ts:21-33` | the loop computes the refusing walk and joins it |
| `DevicePaths.NormalizeLexically` | `android-agent/src/provider/filesystem_write.rs:296-315` | the loop over components computes the clamped walk |
| `DeviceShell.LaunchIsUnderstood` | `src/lib/deviceShell.ts:93-116` | for any directory, valid name and arguments the device shell reads `cd`, the requested directory without surrounding white space (or `/data/local/tmp` if that is blank), `&&` and then the argument vector; with root one word for `su -c`, out of which a second shell reads the same vector |
| `DeviceShell.LaunchIsRefusedIff` | `src/lib/deviceShell.ts:24-104` | the launch is refused for exactly one of four reasons, tried in this order, and otherwise made with these arguments |
| `DeviceShell.TrimIs` | `src/lib/deviceShell.ts:101-102` | trimming cuts off white space at both ends and nothing else |
| `DeviceShell.QuotedIsLiteral` | `src/lib/deviceShell.ts:86-88` | a quoted value is one piece of one word, exactly the value, whatever it contains and whatever follows |
| `DeviceShell.InsideQuotes` | `src/lib/deviceShell.ts:86-88` | the replacement of quotes is undone by the lexer inside a quoted string |
| `DeviceShell.QuotedLineIsItsWords` | `src/lib/deviceShell.ts:106` | a quoted and joined list is read back as that list of words |
| `DeviceShell.QuotingIsInjective` | `src/lib/deviceShell.ts:106` | different argument vectors never become the same command |
| `DeviceShell.RootIsUnderstood` | `src/lib/deviceShell.ts:108-109` | the root form is read as three words and `su -c` with one word |
| `ProcStat.StatReadBack` | `android-agent/src/provider/hosted.rs:1200-1206` | for any process name, parentheses and spaces included, and any numeric tail all three readers return what was printed: start ticks, name, parent and state |
| `ProcStat.ReadIdentity` | `android-agent/src/provider/hosted.rs:1371-1382` | name, parent and state from a line whose last parenthesis is known |
| `ProcStat.ReadState` | `android-agent/src/provider/hosted.rs:1570-1578` | the split of `poll_dead` reads the same state character |
| `ProcNet.RowReadBack` | `android-agent/src/provider/process.rs:834-860` | a printed row gives back port, state, uid, inode and all 4 or 16 address bytes, however it is padded |
| `ProcNet.EndpointReadBack` | `android-agent/src/provider/process.rs:862-879` | an address and port in the kernel's hex form are read back |
| `ProcNet.FormatIpv6` | `android-agent/src/provider/process.rs:881-891` | the loop over four groups fills the array with the decoded words, or refuses |
| `ProcNet.GroupsReadBack` | `android-agent/src/provider/process.rs:881-891` | the little-endian words of an address give back its bytes |
| `ProcNet.RowListens` | `android-agent/src/provider/frida.rs:230-236` | the text reader sees a listener in a row exactly when its local port and state say so |
| `ProcNet.ReadersAgree` | `android-agent/src/provider/frida.rs:230-236` | on any printed table the text has port p listening exactly when some data row parses to local port p in state listen |
| `ProcText.SplitLayout` | `android-agent/src/provider/process.rs:834-840` | splitting at white space recovers the columns however they are padded |
| `TerminalStore.EveryTable` | `src/lib/terminalStore.ts:263-371` | in every table reachable by any interleaving: at most maxSessions tabs, at most one `transport.open` for any tab that ever was, and no tab running, exited or stopped whose session never started |
| `TerminalStore.IdsAreNeverReused` | `src/lib/terminalStore.ts:239-311` | the id of a closed tab never comes back, a new tab gets an id no tab had, and no tab vanishes except by being closed |
| `TerminalStore.RunKeeps` | `src/lib/terminalStore.ts:149-383` | the invariant of the table holds in every run, and tabs only move forward |
| `TerminalStore.StepKeeps` | `src/lib/terminalStore.ts:149-383` | and survives every event |
| `TerminalStore.TerminalStore.CreateTab` | `src/lib/terminalStore.ts:263-311` | the four answers of `create`; a new tab waits under an unused id and the others are as they were, a refusal changes nothing |
| `TerminalStore.TerminalStore.CloseTab` | `src/lib/terminalStore.ts:239-249` | a running or starting tab is closed only by force, and otherwise nothing changes; a closed one is taken off the table and disposed |
| `TerminalStore.TerminalStore.DisposeAllTabs` | `src/lib/terminalStore.ts:314-321` | the table is emptied once, with every tab disposed, and stays disposed |
| `TerminalStore.TerminalStore.Happens` | `src/lib/terminalStore.ts:149-182` | a call or notification for a tab changes that tab only, as its machine says |
| `TerminalStore.OnlyThatTab` | `src/lib/terminalStore.ts:149-182` | what one tab hears changes no other tab, listed or closed |
| `TerminalStore.TerminalStore.FindIndex` | `src/lib/terminalStore.ts:240-241` | the search finds the tab exactly when it is in the table |
| `TerminalSession.ReactKeeps` | `src/lib/terminalSession.ts:97-282` | the invariant of one tab survives every call, wait and notification, and counters and flags only move forward |
| `TerminalSession.NotificationsDoNotEndATab` | `src/lib/terminalStore.ts:339-371` | a size or stop notification changes neither status nor exit code of a tab whose session never started |
| `TerminalSession.MountOpensIff` | `src/lib/terminalStore.ts:149-171` | mounting a waiting tab reaches `open` exactly when neither mounting nor measuring nor resizing throws; whether the size could be measured does not matter |
| `TerminalSession.NewTabRuns` | `src/lib/terminalSession.ts:149-176` | a new tab that is mounted without anything throwing opens one process, and runs under its id as soon as its exit can be heard |
| `TerminalSession.SubscribedRuns` | `src/lib/terminalSession.ts:165-176` | so does any tab that gets that far, whatever it was told meanwhile |
| `TerminalSession.StopStops` | `src/lib/terminalSession.ts:254-265` | stopping a running tab ends it as stopped, without exit code, when the process is closed |
| `TerminalSession.FailureIsTold` | `src/lib/terminalSession.ts:177-179` | a failed start or a transport error marks the tab as failed |
| `TerminalSession.StatusChanges` | `src/lib/terminalStore.ts:339-383` | for every happening: a tab becomes running only with its session, failed only when an error is told, ended only from its life, and never goes back to waiting |
| `TerminalSession.ExitIsTold` | `src/lib/terminalSession.ts:168-173` | an exit is told with its code, as stopped only without code after our own stop, and only for the process the session holds |
| `TerminalSession.BeginKeeps` | `src/lib/terminalStore.ts:324-336` | starting keeps the tab's invariant: a second `begin` opens nothing |

## Left out

Assumptions:

- Start ticks tell the users of one pid apart within one boot; a reboot starts a new kernel.
- Random handles and tab ids never collide with one handed out before.
- Between the check and the signal of `stop` the pid of a record without child is not given to a new process.
- A script does not outlive the call that started it; after a timeout it is cut off at some command.
- The digest is injective: comparing digests is comparing contents. Nobody else writes the staged file, the backup or the target meanwhile.
- The clock read by one caller does not go backwards.

Not modelled:

- The evidence `adopt` collects before it accepts a process, and process details, timestamps, detail strings and audit lines of records.
- JSON: a plainer encoding, from which id, outcome and body can be read back, stands for the text of a response. DTO fields and error texts; the outcome of every validation of names and paths in `replace_native_library` is a parameter, as are `resolve_native_lib_dir` and `guard_writable_package`.
- Permissions, ownership and SELinux labels: a `chmod`, `chown` or `chcon` is a command that may fail.
- Which record files `prune_state_dir` removes: any set that leaves at least 200.
- Deadlines, cancellation in the middle of a frame and the shutdown of running tasks after the stream ended, beyond "a connection can end anywhere".
- Two callers that use one operation id at the same time: lookup and remember are separate calls.
- UTF-8: headers and lines are strings of bytes, and a header that is not UTF-8, the forms of a number that Python's `int` reads beyond digits with one plus sign, and timeouts on the export connection are left out, as are headers longer than the printer's buffer and the second version of the bridge protocol.
- Expansion in the shell: the lexer has no reading for a line on which anything would be expanded.
- Symbolic links resolved on disk before a write, and the roots an environment variable can set; the roots are a parameter.
- The text form of IPv6 addresses, the cap on socket rows, and `/proc` files that change while they are read.
- Titles, selection, paste, repainting, exit signals and the size shown by a terminal tab; a tab's columns matter only as "new size or not".
- What becomes of a process whose tab is disposed while `open` is still in flight.
- React components, the desktop side in Rust, the Tauri shell, plugins, icons and configuration.

Weaker or different in form:

- HostedProvider.Provider.Start: models `start` from the spawned child on; spawning and its checks are parameters of the event `StartSpawn`.
- HostedProvider.Provider.Adopt: models `adopt` from the accepted evidence on; that the process is alive, not a zombie and of the right name is a parameter, and its readings may be old.
- HostedProvider.Provider.Refresh: does not say in which order entries are refreshed, as the order of the map is not specified.
- Server.LiveIsExact: connections are values in a machine of events, not objects; the counter is one number, which the atomic operations of `ClientPresence` justify.
- ProbeOutput.Sink.PumpRead: the two pumps run one after the other; they share no state.
- TerminalStore.TerminalStore.Happens: tabs are values in a list, so the sharing of one entry between the list and the callbacks of its session becomes the lookup of its id; a tab that was closed lives on in ghost state.
- FilesystemWrite.Measure: a tree is a value that does not change while it is measured, and the inner loop is a method of its own.
- ExportPrinter.ExportFiles: a write to the socket is complete; what a file loses on the way is the number `sent`.
- LibraryReplacement.AllOrNothing: takes the copies to complete, which is enough; the exact condition is in `LibraryReplacement.AllOrNothingIff`.
