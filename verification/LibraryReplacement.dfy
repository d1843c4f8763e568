/**
 Replacing a native library: backup, copy to a temporary name, rename, verify,
 roll back.  `Replace` is the transaction as a function of the disk and of
 everything the environment answered; `Device.ReplaceNativeLibrary` performs it.
 */
module LibraryReplacement {
  import opened Bytes
  import opened Wrappers
  import opened PrivilegedShell

  /** One `su -c` run: the answers its commands get, and whether its reply arrives. */
  datatype SuRun = SuRun(answers: seq<Answer>, reported: bool)

  datatype Names = Names(staged: Path, target: Path, backup: Path) {
    function Tmp(): Path { target + ".arttmp" }

    /**
     The target lives in the package's library directory, the other two in the
     staging directory.  (Staged file and backup may be the same path.)
     */
    predicate Apart() {
      target !in {staged, backup} && Tmp() !in {staged, backup}
    }
  }

  /** The result of an executed operation; it is what the ledger remembers. */
  datatype Value = Value(verified: bool, replacedExisting: bool, rolledBack: Option<bool>, steps: seq<StepRecord>)

  datatype Reply = Done(value: Value) | Replayed(value: Value) | Refused | VerifyFailed

  datatype StepName =
    | ValidateInput | GuardTarget | ResolveTarget | VerifyStaged | BackupOriginal | Install | VerifyInstalled | Rollback

  datatype StepRecord = StepRecord(name: StepName, ok: bool)

  datatype Environment = Environment(
    begun: bool,               // operation id and package name are well formed
    cached: Option<Value>,     // what the ledger remembers for this operation id
    shapeOk: bool,             // ABI, library name and paths pass their checks
    guardOk: bool,
    resolveOk: bool,
    stagedReadable: bool,
    stagedElf: bool,
    backupPathOk: bool,        // the derived backup path passes its check
    backup: SuRun,
    dirOk: bool,               // so does the target directory
    install: SuRun,
    targetReadable: bool,
    rollback: SuRun)

  /** `seen` is every disk a reader could have seen; `atRollback` the disk when rollback began. */
  datatype Outcome = Outcome(
    reply: Reply,
    steps: seq<StepRecord>,
    remembered: Option<Value>,
    disk: Disk,
    seen: seq<Disk>,
    atRollback: Option<Disk>)

  function Su(script: Shell, errexit: bool, d: Disk, run: SuRun, sentinel: string): (r: (Disk, seq<Disk>, bool)) {
    var (s, x) := Exec(script, State(d, [], run.answers, []), errexit);
    (s.disk, s.trace, run.reported && Accepted(s, x, sentinel))
  }

  function SuBackup(n: Names, d: Disk, run: SuRun): (Disk, seq<Disk>, bool) {
    Su(BackupScript(n.target, n.backup), false, d, run, "BACKED_UP")
  }

  function SuInstall(n: Names, d: Disk, run: SuRun): (Disk, seq<Disk>, bool) {
    Su(InstallScript(n.staged, n.target, n.Tmp()), true, d, run, "INSTALLED")
  }

  function SuRollback(n: Names, d: Disk, run: SuRun, restore: bool): (Disk, seq<Disk>, bool) {
    Su(RollbackScript(n.backup, n.target, restore), false, d, run, if restore then "ROLLED_BACK" else "REMOVED")
  }

  const VALIDATED := [StepRecord(ValidateInput, true)]
  const GUARDED := VALIDATED + [StepRecord(GuardTarget, true)]
  const RESOLVED := GUARDED + [StepRecord(ResolveTarget, true)]
  const STAGED := RESOLVED + [StepRecord(VerifyStaged, true)]
  const BACKED_UP := STAGED + [StepRecord(BackupOriginal, true)]

  function Stopped(d: Disk, steps: seq<StepRecord>): Outcome {
    Outcome(Refused, steps, None, d, [], None)
  }

  function Replace(n: Names, d: Disk, env: Environment): Outcome {
    if !env.begun then Stopped(d, [])
    else if env.cached.Some? then Outcome(Replayed(env.cached.value), [], None, d, [], None)
    else if !env.shapeOk then Stopped(d, [])
    else if !env.guardOk then Stopped(d, VALIDATED + [StepRecord(GuardTarget, false)])
    else if !env.resolveOk then Stopped(d, GUARDED + [StepRecord(ResolveTarget, false)])
    else if n.staged !in d || !env.stagedReadable || !env.stagedElf then
      Stopped(d, RESOLVED + [StepRecord(VerifyStaged, false)])
    else if !env.backupPathOk then Stopped(d, [])
    else
      var existing := n.target in d;
      var (d1, seen1, ok1) := if existing then SuBackup(n, d, env.backup) else (d, [], true);
      if !ok1 then Stopped(d1, STAGED + [StepRecord(BackupOriginal, false)]).(seen := seen1)
      else if !env.dirOk then Stopped(d1, BACKED_UP + [StepRecord(Install, false)]).(seen := seen1)
      else InstallAndVerify(n, d[n.staged], existing, d1, seen1, env)
  }

  /** From the install step on; `wanted` are the bytes whose digest was taken. */
  function InstallAndVerify(n: Names, wanted: Bytes, existing: bool, d1: Disk, seen1: seq<Disk>, env: Environment)
    : Outcome
  {
    var (d2, seen2, ok2) := SuInstall(n, d1, env.install);
    if !ok2 then
      var (d3, seen3, undone) := SuRollback(n, d2, env.rollback, existing);
      Outcome(Refused, BACKED_UP + [StepRecord(Install, false), StepRecord(Rollback, undone)], None, d3,
              seen1 + seen2 + seen3, Some(d2))
    else
      var verified := env.targetReadable && Content(d2, n.target) == Some(wanted);
      var steps := BACKED_UP + [StepRecord(Install, true), StepRecord(VerifyInstalled, verified)];
      if verified then
        var value := Value(true, existing, None, steps);
        Outcome(Done(value), steps, Some(value), d2, seen1 + seen2, None)
      else
        var (d3, seen3, undone) := SuRollback(n, d2, env.rollback, existing);
        var all := steps + [StepRecord(Rollback, undone)];
        // The failed result is remembered as well.
        Outcome(VerifyFailed, all, Some(Value(false, existing, Some(undone), all)), d3,
                seen1 + seen2 + seen3, Some(d2))
  }

  predicate EndsWithRollback(o: Outcome) {
    |o.steps| > 0 && o.steps[|o.steps| - 1] == StepRecord(Rollback, true)
  }

  // ---- what holds whatever the environment answers ----

  /**
   No promise of any command is needed for this: a reply of success means that
   the target holds exactly the staged bytes.
   */
  lemma SuccessMeansInstalled(n: Names, d: Disk, env: Environment)
    requires Replace(n, d, env).reply.Done?
    ensures var o := Replace(n, d, env);
            && n.staged in d && Content(o.disk, n.target) == Some(d[n.staged])
            && o.reply.value.verified && o.reply.value.replacedExisting == (n.target in d)
            && o.remembered == Some(o.reply.value)
  {
  }

  /** A failure before the install step leaves the target untouched all along. */
  lemma EarlyFailureTouchesNothing(n: Names, d: Disk, env: Environment)
    requires n.Apart()
    requires var o := Replace(n, d, env); o.reply.Refused? && o.atRollback.None?
    ensures var o := Replace(n, d, env);
            && TargetIn(o.seen, n.target, {Content(d, n.target)})
            && Content(o.disk, n.target) == Content(d, n.target)
            && o.remembered.None?
  {
    if n.target in d {
      BackupEffect(n.target, n.backup, State(d, [], env.backup.answers, []));
    }
  }

  /** A repeated operation id does nothing and repeats the remembered result, failed or not. */
  lemma RetryReplays(n: Names, d: Disk, env: Environment, e: Disk, again: Environment)
    requires Replace(n, d, env).remembered.Some?
    requires again.begun && again.cached == Replace(n, d, env).remembered
    ensures var o := Replace(n, e, again);
            && o.disk == e && o.seen == [] && o.reply == Replayed(Replace(n, d, env).remembered.value)
            && (o.reply.value.verified <==> Replace(n, d, env).reply.Done?)
  {
  }

  /** What the backup holds once its unchecked `cp` has been answered. */
  function BackupLeft(n: Names, d: Disk, env: Environment): Option<Bytes> {
    var a := env.backup.answers;
    if a != [] && a[0].left.Some? then a[0].left else Content(d, n.backup)
  }

  /** What the rollback would rename onto the target: what its unchecked `cp` left, or what `install` had. */
  function MovedBack(n: Names, d: Disk, env: Environment): Option<Bytes> {
    var back := env.rollback.answers;
    if back != [] && back[0].left.Some? then back[0].left else InstallTmp(env.install.answers, Content(d, n.Tmp()))
  }

  /**
   The answers after which a reported rollback is one.  With an original, the `cp` of the rollback
   left its bytes in the temporary file, or did not open it while `install` had left just these
   bytes there.  Without one, `install` never renamed, or the `rm` worked.
   */
  predicate RestoresPrior(n: Names, d: Disk, env: Environment) {
    var back := env.rollback.answers;
    if n.target in d then back != [] && MovedBack(n, d, env) == Some(d[n.target])
    else !Renames(env.install.answers) || (back != [] && back[0].ok)
  }

  /** The disk when the rollback begins, from the answers of the two scripts before it. */
  lemma DiskAtRollback(n: Names, d: Disk, env: Environment)
    requires n.Apart() && Replace(n, d, env).atRollback.Some?
    ensures var at := Replace(n, d, env).atRollback.value;
            && Content(at, n.Tmp()) == InstallTmp(env.install.answers, Content(d, n.Tmp()))
            && Content(at, n.target)
               == (if Renames(env.install.answers) then env.install.answers[0].left else Content(d, n.target))
            && (n.target in d ==> Content(at, n.backup) == BackupLeft(n, d, env))
  {
    assert |n.Tmp()| != |n.target|;
    var d1 := if n.target in d then SuBackup(n, d, env.backup).0 else d;
    if n.target in d {
      BackupEffect(n.target, n.backup, State(d, [], env.backup.answers, []));
    }
    assert n.staged in d1 by {
      assert Content(d1, n.staged) == Content(d, n.staged) || n.staged == n.backup;
    }
    InstallEffect(n.staged, n.target, n.Tmp(), State(d1, [], env.install.answers, []));
  }

  /**
   When an operation fails and its rollback step reports success, the prior state is back exactly
   when the answers of the unchecked commands say so; and if the rollback copied its backup, exactly
   when the `cp` of the backup had saved the prior bytes.
   */
  lemma RollbackIsExact(n: Names, d: Disk, env: Environment)
    requires n.Apart() && EndsWithRollback(Replace(n, d, env))
    ensures var o := Replace(n, d, env);
            && (Content(o.disk, n.target) == Content(d, n.target) <==> RestoresPrior(n, d, env))
            && (n.target in d && env.rollback.answers != [] && env.rollback.answers[0].left.Some?
                && env.rollback.answers[0].left == BackupLeft(n, d, env) ==>
                  (Content(o.disk, n.target) == Content(d, n.target) <==>
                     BackupLeft(n, d, env) == Content(d, n.target)))
  {
    RollbackOutcome(n, d, env);
  }

  /** What the rollback does to the target and when its step reports success, from the answers alone. */
  lemma RollbackOutcome(n: Names, d: Disk, env: Environment)
    requires n.Apart() && Replace(n, d, env).atRollback.Some?
    ensures var o := Replace(n, d, env);
            var back := env.rollback.answers;
            && (EndsWithRollback(o) <==> SaysUndone(n, d, env))
            && Content(o.disk, n.target)
               == if n.target in d && RenamesOld(n, d, env) then MovedBack(n, d, env)
                  else if n.target !in d && back != [] && back[0].ok then None
                  else if Renames(env.install.answers) then env.install.answers[0].left
                  else Content(d, n.target)
  {
    var o := Replace(n, d, env);
    var at := o.atRollback.value;
    var s := State(at, [], env.rollback.answers, []);
    DiskAtRollback(n, d, env);
    if n.target in d {
      RestoreEffect(n.backup, n.target, s, {Content(at, n.target)});
    } else {
      RemoveEffect(n.backup, n.target, s, {Content(at, n.target), None});
    }
  }

  // ---- all or nothing ----

  /** What all or nothing means for an outcome. */
  ghost predicate AllOrNothingHolds(o: Outcome, target: Path, prior: Option<Bytes>, staged: Option<Bytes>) {
    && TargetIn(o.seen, target, {prior, staged})
    && Content(o.disk, target) in {prior, staged}
    && (o.reply.Done? ==> Content(o.disk, target) == staged)
    && (EndsWithRollback(o) ==> Content(o.disk, target) == prior)
  }

  /** The backup step succeeds, and the install step does. */
  predicate Saved(n: Names, d: Disk, env: Environment) {
    n.target in d ==> env.backup.reported && |env.backup.answers| >= 4 && env.backup.answers[3].ok
  }

  predicate Installed(env: Environment) {
    env.install.reported && Renames(env.install.answers) && Oks(env.install.answers, 3, 3)
  }

  /** The checks and the backup let the operation come to its install step. */
  predicate ComesToInstall(n: Names, d: Disk, env: Environment) {
    && env.begun && env.cached.None? && env.shapeOk && env.guardOk && env.resolveOk
    && n.staged in d && env.stagedReadable && env.stagedElf && env.backupPathOk && env.dirOk
    && Saved(n, d, env)
  }

  /** The install is reported, and the target is found to hold the staged bytes. */
  predicate Confirmed(n: Names, d: Disk, env: Environment) {
    Installed(env) && env.targetReadable && env.install.answers[0].left == Content(d, n.staged)
  }

  /** The rollback of an original comes to its rename. */
  predicate RenamesOld(n: Names, d: Disk, env: Environment) {
    BackupLeft(n, d, env).Some? && MovedBack(n, d, env).Some? && RenamesBack(env.rollback.answers)
  }

  /** The rollback reports success. */
  predicate SaysUndone(n: Names, d: Disk, env: Environment) {
    var back := env.rollback.answers;
    && env.rollback.reported
    && if n.target in d then RenamesOld(n, d, env) && SaysRolledBack(back) else |back| >= 3 && back[2].ok
  }

  /**
   What has to be true of the copies.  `install` renames only the staged bytes or the prior ones;
   unless the result is confirmed, so does the rollback, and it claims to have restored the prior
   state only if it has.
   */
  predicate CopiesGood(n: Names, d: Disk, env: Environment) {
    var whole := {Content(d, n.target), Content(d, n.staged)};
    && (Renames(env.install.answers) ==> env.install.answers[0].left in whole)
    && (!Confirmed(n, d, env) ==>
          && (n.target in d && RenamesOld(n, d, env) ==> MovedBack(n, d, env) in whole)
          && (SaysUndone(n, d, env) ==> RestoresPrior(n, d, env)))
  }

  /** The backup leaves the target alone and does not remove the staged file. */
  lemma BackupPhase(n: Names, d: Disk, run: SuRun)
    requires n.Apart() && n.target in d
    ensures var (d1, seen1, saved) := SuBackup(n, d, run);
            && TargetIn(seen1, n.target, {Content(d, n.target)})
            && Content(d1, n.target) == Content(d, n.target)
            && (n.staged in d ==> n.staged in d1)
            && (saved <==> run.reported && |run.answers| >= 4 && run.answers[3].ok)
  {
    BackupEffect(n.target, n.backup, State(d, [], run.answers, []));
    assert n.staged != n.backup ==> Content(SuBackup(n, d, run).0, n.staged) == Content(d, n.staged);
  }

  lemma InstallPhase(n: Names, d1: Disk, run: SuRun, whole: set<Option<Bytes>>)
    requires n.Apart() && n.staged in d1 && Content(d1, n.target) in whole
    ensures var (d2, seen2, installed) := SuInstall(n, d1, run);
            var a := run.answers;
            && Content(d2, n.target) == (if Renames(a) then a[0].left else Content(d1, n.target))
            && (TargetIn(seen2, n.target, whole) <==> Content(d2, n.target) in whole)
            && (installed <==> run.reported && Renames(a) && Oks(a, 3, 3))
  {
    assert |n.Tmp()| != |n.target|;
    var s := State(d1, [], run.answers, []);
    InstallEffect(n.staged, n.target, n.Tmp(), s);
    InstallSeen(n.staged, n.target, n.Tmp(), s, whole);
  }

  /** What readers see of the rollback, once what they saw before it was whole. */
  lemma RollbackPhase(n: Names, d2: Disk, run: SuRun, restore: bool, whole: set<Option<Bytes>>)
    requires n.Apart() && Content(d2, n.target) in whole && (!restore ==> None in whole)
    ensures var (d3, seen3, undone) := SuRollback(n, d2, run, restore);
            TargetIn(seen3, n.target, whole) <==> Content(d3, n.target) in whole
  {
    var s := State(d2, [], run.answers, []);
    if restore {
      RestoreEffect(n.backup, n.target, s, whole);
    } else {
      RemoveEffect(n.backup, n.target, s, whole);
    }
  }

  lemma TargetInAppend(a: seq<Disk>, b: seq<Disk>, target: Path, allowed: set<Option<Bytes>>)
    ensures TargetIn(a + b, target, allowed) <==> TargetIn(a, target, allowed) && TargetIn(b, target, allowed)
  {
    assert forall d <- a :: d in a + b;
    assert forall d <- b :: d in a + b;
  }

  /** From the install step on, readers see a whole target exactly when the renamed bytes are whole. */
  lemma FromInstallOn(n: Names, wanted: Bytes, d1: Disk, seen1: seq<Disk>, env: Environment, whole: set<Option<Bytes>>)
    requires n.Apart() && n.staged in d1 && Content(d1, n.target) in whole && TargetIn(seen1, n.target, whole)
    ensures var existing, a := n.target in d1, env.install.answers;
            var o := InstallAndVerify(n, wanted, existing, d1, seen1, env);
            var renamed := if Renames(a) then a[0].left else Content(d1, n.target);
            && (o.reply.Done? <==>
                  env.install.reported && Renames(a) && Oks(a, 3, 3) && env.targetReadable && a[0].left == Some(wanted))
            && (o.reply.Done? <==> o.atRollback.None?)
            && (o.reply.Done? ==> Content(o.disk, n.target) == renamed)
            && (TargetIn(o.seen, n.target, whole) <==> renamed in whole && Content(o.disk, n.target) in whole)
  {
    var existing := n.target in d1;
    var (d2, seen2, installed) := SuInstall(n, d1, env.install);
    InstallPhase(n, d1, env.install, whole);
    TargetInAppend(seen1, seen2, n.target, whole);
    var (d3, seen3, undone) := SuRollback(n, d2, env.rollback, existing);
    TargetInAppend(seen1 + seen2, seen3, n.target, whole);
    if Content(d2, n.target) in whole {
      RollbackPhase(n, d2, env.rollback, existing, whole);
    }
  }

  /**
   All or nothing, exactly: at every moment the target holds its complete prior state or the complete
   staged bytes, success leaves the staged bytes, and a failure whose rollback step reports success
   leaves the prior state.  However the scripts are cut off or fail, that is so if and only if the
   install step is not reached or the answers show the copies to be good.
   */
  lemma AllOrNothingIff(n: Names, d: Disk, env: Environment)
    requires n.Apart()
    ensures AllOrNothingHolds(Replace(n, d, env), n.target, Content(d, n.target), Content(d, n.staged)) <==>
              (ComesToInstall(n, d, env) ==> CopiesGood(n, d, env))
  {
    if n.target in d {
      BackupPhase(n, d, env.backup);
    }
    if ComesToInstall(n, d, env) {
      ExactlyGood(n, d, env);
    } else {
      NothingTouched(n, d, env);
    }
  }

  lemma NothingTouched(n: Names, d: Disk, env: Environment)
    requires n.Apart() && !ComesToInstall(n, d, env)
    ensures AllOrNothingHolds(Replace(n, d, env), n.target, Content(d, n.target), Content(d, n.staged))
  {
    if n.target in d {
      BackupPhase(n, d, env.backup);
    }
    assert Replace(n, d, env).atRollback.None? && !Replace(n, d, env).reply.Done?;
    assert !EndsWithRollback(Replace(n, d, env));
  }

  lemma ExactlyGood(n: Names, d: Disk, env: Environment)
    requires n.Apart() && ComesToInstall(n, d, env)
    ensures AllOrNothingHolds(Replace(n, d, env), n.target, Content(d, n.target), Content(d, n.staged)) <==>
              CopiesGood(n, d, env)
  {
    var o, whole := Replace(n, d, env), {Content(d, n.target), Content(d, n.staged)};
    var (d1, seen1, saved) := if n.target in d then SuBackup(n, d, env.backup) else (d, [], true);
    if n.target in d {
      BackupPhase(n, d, env.backup);
    }
    assert o == InstallAndVerify(n, d[n.staged], n.target in d, d1, seen1, env);
    FromInstallOn(n, d[n.staged], d1, seen1, env, whole);
    if o.atRollback.Some? {
      DiskAtRollback(n, d, env);
      RollbackOutcome(n, d, env);
      if EndsWithRollback(o) {
        RollbackIsExact(n, d, env);
      }
    } else {
      assert !EndsWithRollback(o);
    }
  }

  /** The unchecked copies complete, and the checked one is complete when it says so. */
  ghost predicate CopiesWork(n: Names, d: Disk, env: Environment) {
    var prior := Content(d, n.target);
    && (prior.Some? ==> env.backup.answers != [] ==> env.backup.answers[0].left == prior)
    && (prior.Some? ==> env.rollback.answers != [] ==> env.rollback.answers[0].left == prior)
    && (env.install.answers != [] && env.install.answers[0].ok && env.install.answers[0].left.Some? ==>
          env.install.answers[0].left == (if n.staged == n.backup && prior.Some? then prior else Content(d, n.staged)))
  }

  /** Copies that work are good: then all or nothing holds however the scripts are cut off. */
  lemma AllOrNothing(n: Names, d: Disk, env: Environment)
    requires n.Apart() && CopiesWork(n, d, env)
    requires n.target !in d && env.rollback.answers != [] ==> env.rollback.answers[0].ok
    ensures AllOrNothingHolds(Replace(n, d, env), n.target, Content(d, n.target), Content(d, n.staged))
  {
    AllOrNothingIff(n, d, env);
  }

  // ---- what is reported ----

  const ORDER := [ValidateInput, GuardTarget, ResolveTarget, VerifyStaged, BackupOriginal, Install, VerifyInstalled]

  function Passed(names: seq<StepName>): seq<StepRecord> {
    seq(|names|, i requires 0 <= i < |names| => StepRecord(names[i], true))
  }

  lemma StepsOfCheckedPart(n: Names, d: Disk, env: Environment)
    requires n.Apart() && !ComesToInstall(n, d, env)
    ensures var steps := Replace(n, d, env).steps;
            steps == if !env.begun || env.cached.Some? || !env.shapeOk then []
                     else if !env.guardOk then Passed(ORDER[..1]) + [StepRecord(GuardTarget, false)]
                     else if !env.resolveOk then Passed(ORDER[..2]) + [StepRecord(ResolveTarget, false)]
                     else if n.staged !in d || !env.stagedReadable || !env.stagedElf then
                       Passed(ORDER[..3]) + [StepRecord(VerifyStaged, false)]
                     else if !env.backupPathOk then []
                     else if !Saved(n, d, env) then Passed(ORDER[..4]) + [StepRecord(BackupOriginal, false)]
                     else Passed(ORDER[..5]) + [StepRecord(Install, false)]
    ensures Replace(n, d, env).remembered == None
    ensures Replace(n, d, env).reply ==
            if env.begun && env.cached.Some? then Replayed(env.cached.value) else Refused
  {
    if n.target in d {
      BackupPhase(n, d, env.backup);
    }
  }

  lemma StepsOfInstall(n: Names, d: Disk, env: Environment)
    requires n.Apart() && ComesToInstall(n, d, env)
    ensures var o, undone := Replace(n, d, env), StepRecord(Rollback, SaysUndone(n, d, env));
            && o.steps == (if !Installed(env) then Passed(ORDER[..5]) + [StepRecord(Install, false), undone]
                           else if !Confirmed(n, d, env) then
                             Passed(ORDER[..6]) + [StepRecord(VerifyInstalled, false), undone]
                           else Passed(ORDER))
            && o.remembered == (if !Installed(env) then None
                                else if Confirmed(n, d, env) then Some(Value(true, n.target in d, None, o.steps))
                                else Some(Value(false, n.target in d, Some(undone.ok), o.steps)))
            && o.reply == (if !Installed(env) then Refused
                           else if Confirmed(n, d, env) then Done(o.remembered.value) else VerifyFailed)
  {
    var (d1, seen1, saved) := if n.target in d then SuBackup(n, d, env.backup) else (d, [], true);
    if n.target in d {
      BackupPhase(n, d, env.backup);
    }
    InstallPhase(n, d1, env.install, {Content(d1, n.target)});
    if !Confirmed(n, d, env) {
      RollbackOutcome(n, d, env);
    }
  }

  /**
   The reply and the remembered value, from what the environment answered: a repeated operation gets
   to know whether the rollback worked.
   */
  lemma ReportIsTrue(n: Names, d: Disk, env: Environment)
    requires n.Apart()
    ensures var o, undone := Replace(n, d, env), SaysUndone(n, d, env);
            && (o.reply.VerifyFailed? ==> o.remembered == Some(Value(false, n.target in d, Some(undone), o.steps)))
            && (o.reply.Done? ==> o.remembered == Some(Value(true, n.target in d, None, Passed(ORDER))))
            && (o.reply.Refused? || o.reply.Replayed? ==> o.remembered == None)
            && (o.reply.VerifyFailed? <==> ComesToInstall(n, d, env) && Installed(env) && !Confirmed(n, d, env))
            && (o.reply.Done? <==> ComesToInstall(n, d, env) && Confirmed(n, d, env))
  {
    if ComesToInstall(n, d, env) {
      StepsOfInstall(n, d, env);
    } else {
      StepsOfCheckedPart(n, d, env);
    }
  }

  /** A rollback is listed exactly when one was made, with its true flag. */
  lemma RollbackIsListed(n: Names, d: Disk, env: Environment)
    requires n.Apart()
    ensures var steps, undone := Replace(n, d, env).steps, SaysUndone(n, d, env);
            && (StepRecord(Rollback, undone) in steps <==> ComesToInstall(n, d, env) && !Confirmed(n, d, env))
            && StepRecord(Rollback, !undone) !in steps
  {
    if ComesToInstall(n, d, env) {
      StepsOfInstall(n, d, env);
    } else {
      StepsOfCheckedPart(n, d, env);
    }
  }

  // ---- why the copies have to work ----

  /**
   The backup script does not check its `cp`.  When the device is full it can
   leave an empty backup and still report success; if installing then fails,
   the rollback puts the empty file in place and reports success, too.
   */
  lemma UncheckedBackupLosesTheTarget()
    ensures exists n: Names, d: Disk, env: Environment ::
              && n.Apart() && EndsWithRollback(Replace(n, d, env))
              && Content(Replace(n, d, env).disk, n.target) !in {Content(d, n.target), Content(d, n.staged)}
  {
    var n := Names("s", "t", "b");
    var d: Disk := map["s" := [1], "t" := [2]];
    var fine := Answer(true, [], None);
    var full := Answer(false, [], Some([]));
    var copied := Answer(true, [], Some([]));
    var env := Environment(true, None, true, true, true, true, true, true,
      SuRun([full, fine, fine, fine], true), true, SuRun([], true), true,
      SuRun([copied, fine, fine, fine, fine, fine], true));
    var s := State(d, [], env.backup.answers, []);
    BackupEffect("t", "b", s);
    var (d1, seen1, ok1) := SuBackup(n, d, env.backup);
    assert ok1 && Content(d1, "b") == Some([]) && Content(d1, "t") == Some([2]);
    ExecThen(Cp("s", n.Tmp()), Then(Do(Chmod(n.Tmp())), Then(Do(Attributes(n.Tmp())), InstallTail("t", n.Tmp()))),
             State(d1, [], [], []), true);
    assert SuInstall(n, d1, env.install) == (d1, [], false);
    var r := State(d1, [], env.rollback.answers, []);
    assert |n.Tmp()| == 8;
    RestoreEffect("b", "t", r, {Some([2])});
    assert Content(Replace(n, d, env).disk, "t") == Some([]);
    assert EndsWithRollback(Replace(n, d, env));
  }

  // ---- the operation itself ----

  class Device {
    var files: Disk
    ghost var seen: seq<Disk>

    constructor (files: Disk)
      ensures this.files == files && seen == []
    {
      this.files, seen := files, [];
    }

    /** `run_privileged`. */
    method RunPrivileged(script: Shell, errexit: bool, run: SuRun, sentinel: string) returns (accepted: bool)
      modifies this
      ensures var (d, trace, ok) := Su(script, errexit, old(files), run, sentinel);
              files == d && seen == old(seen) + trace && accepted == ok
    {
      var (s, x) := Exec(script, State(files, [], run.answers, []), errexit);
      files := s.disk;
      seen := seen + s.trace;
      return run.reported && x.Success? && sentinel in s.out;
    }

    method RollBack(n: Names, run: SuRun, restore: bool) returns (undone: bool)
      modifies this
      ensures var (d, trace, ok) := SuRollback(n, old(files), run, restore);
              files == d && seen == old(seen) + trace && undone == ok
    {
      undone := RunPrivileged(RollbackScript(n.backup, n.target, restore), false, run,
                              if restore then "ROLLED_BACK" else "REMOVED");
    }

    method ReplaceNativeLibrary(n: Names, env: Environment)
      returns (reply: Reply, steps: seq<StepRecord>, remembered: Option<Value>)
      modifies this
      ensures var o := Replace(n, old(files), env);
              && reply == o.reply && steps == o.steps && remembered == o.remembered
              && files == o.disk && seen == old(seen) + o.seen
      ensures n.Apart() && reply.VerifyFailed? ==>
                remembered == Some(Value(false, n.target in old(files), Some(SaysUndone(n, old(files), env)), steps))
      ensures n.Apart() && reply.Done? ==>
                remembered == Some(Value(true, n.target in old(files), None, Passed(ORDER)))
    {
      if n.Apart() {
        ReportIsTrue(n, files, env);
      }
      steps, remembered := [], None;
      if !env.begun {
        return Refused, steps, None;
      }
      if env.cached.Some? {
        return Replayed(env.cached.value), steps, None;
      }
      if !env.shapeOk {
        return Refused, steps, None;
      }
      steps := steps + [StepRecord(ValidateInput, true)];
      if !env.guardOk {
        return Refused, steps + [StepRecord(GuardTarget, false)], None;
      }
      steps := steps + [StepRecord(GuardTarget, true)];
      if !env.resolveOk {
        return Refused, steps + [StepRecord(ResolveTarget, false)], None;
      }
      steps := steps + [StepRecord(ResolveTarget, true)];
      assert steps == RESOLVED;
      var existing := n.target in files;
      if n.staged !in files || !env.stagedReadable {
        return Refused, steps + [StepRecord(VerifyStaged, false)], None;
      }
      var wanted := files[n.staged];
      if !env.stagedElf {
        return Refused, steps + [StepRecord(VerifyStaged, false)], None;
      }
      steps := steps + [StepRecord(VerifyStaged, true)];
      if !env.backupPathOk {
        return Refused, [], None;
      }
      if existing {
        var saved := RunPrivileged(BackupScript(n.target, n.backup), false, env.backup, "BACKED_UP");
        if !saved {
          return Refused, steps + [StepRecord(BackupOriginal, false)], None;
        }
      }
      steps := steps + [StepRecord(BackupOriginal, true)];
      assert steps == BACKED_UP;
      if !env.dirOk {
        return Refused, steps + [StepRecord(Install, false)], None;
      }
      reply, steps, remembered := InstallVerified(n, wanted, existing, steps, env);
    }

    /** The steps from the atomic install on. */
    method InstallVerified(n: Names, wanted: Bytes, existing: bool, before: seq<StepRecord>, env: Environment)
      returns (reply: Reply, steps: seq<StepRecord>, remembered: Option<Value>)
      requires before == BACKED_UP
      modifies this
      ensures var o := InstallAndVerify(n, wanted, existing, old(files), [], env);
              && reply == o.reply && steps == o.steps && remembered == o.remembered
              && files == o.disk && seen == old(seen) + o.seen
    {
      steps := before;
      var installed := RunPrivileged(InstallScript(n.staged, n.target, n.Tmp()), true, env.install, "INSTALLED");
      if !installed {
        var undone := RollBack(n, env.rollback, existing);
        return Refused, steps + [StepRecord(Install, false), StepRecord(Rollback, undone)], None;
      }
      steps := steps + [StepRecord(Install, true)];
      var verified := env.targetReadable && n.target in files && files[n.target] == wanted;
      steps := steps + [StepRecord(VerifyInstalled, verified)];
      var rolledBack: Option<bool> := None;
      if !verified {
        var undone := RollBack(n, env.rollback, existing);
        steps := steps + [StepRecord(Rollback, undone)];
        rolledBack := Some(undone);
      }
      var value := Value(verified, existing, rolledBack, steps);
      reply := if verified then Done(value) else VerifyFailed;
      remembered := Some(value);
    }
  }
}
