/**
 The fixed scripts of the privileged layer, with the shell rules that decide
 how they can fail: `;`, `&&`, `set -e`, `[ -f ]`, and a sentinel word at the end.

 Nothing is assumed about the commands.  Each one is answered by the
 environment: it may fail, `cp` may leave anything behind, and the script may be
 cut off before any command.
 */
module PrivilegedShell {
  import opened Bytes
  import opened Wrappers

  type Path = string
  type Disk = map<Path, Bytes>

  datatype Command =
    | Cp(from: Path, to: Path)
    | Mv(from: Path, to: Path)
    | Rm(path: Path)
    | Chmod(path: Path)
    | Attributes(path: Path)  // owner and SELinux context: tolerated, never a failure
    | Sync
    | Echo(word: string)

  datatype Shell =
    | Do(command: Command)
    | Then(first: Shell, rest: Shell)              // first; rest
    | AndThen(first: Shell, rest: Shell)           // first && rest
    | IfFile(path: Path, yes: Shell, no: Shell)    // if [ -f path ]; then yes; else no; fi

  /**
   How one command went.  For `cp`, `middle` is what the destination holds
   while bytes flow and `left` what it holds afterwards (None: never opened).
   */
  datatype Answer = Answer(ok: bool, middle: Bytes, left: Option<Bytes>)

  datatype Exit = Success | Failure | Aborted | CutOff

  /** `trace` is every disk a reader could have seen. */
  datatype State = State(disk: Disk, out: seq<string>, answers: seq<Answer>, trace: seq<Disk>)

  function Content(d: Disk, p: Path): Option<Bytes> {
    if p in d then Some(d[p]) else None
  }

  function Perform(d: Disk, c: Command, a: Answer): Disk {
    match c
    case Cp(from, to) => if from in d && a.left.Some? then d[to := a.left.value] else d
    case Mv(from, to) => if from in d && a.ok then (d - {from})[to := d[from]] else d
    case Rm(path) => if a.ok then d - {path} else d
    case _ => d
  }

  /** What a reader can see while the command runs. */
  function Middle(d: Disk, c: Command, a: Answer): Disk {
    if c.Cp? && c.from in d && a.left.Some? then d[c.to := a.middle] else d
  }

  predicate Succeeds(d: Disk, c: Command, a: Answer) {
    match c
    case Cp(from, _) => from in d && a.left.Some? && a.ok
    case Mv(from, _) => from in d && a.ok
    case Attributes(_) => true
    case _ => a.ok
  }

  function Step(s: State, c: Command): State
    requires s.answers != []
  {
    var a := s.answers[0];
    var d := Perform(s.disk, c, a);
    State(d, if c.Echo? && a.ok then s.out + [c.word] else s.out, s.answers[1..],
          s.trace + [Middle(s.disk, c, a), d])
  }

  /** `errexit` is `set -e`: it looks at commands that are not the left of `&&`. */
  function Exec(sh: Shell, s: State, errexit: bool): (State, Exit) {
    match sh
    case Do(c) =>
      if s.answers == [] then (s, CutOff)
      else (Step(s, c), if Succeeds(s.disk, c, s.answers[0]) then Success else if errexit then Aborted else Failure)
    case Then(first, rest) =>
      var (t, x) := Exec(first, s, errexit);
      if x.Aborted? || x.CutOff? then (t, x) else Exec(rest, t, errexit)
    case AndThen(first, rest) =>
      var (t, x) := Exec(first, s, false);
      if x.Success? then Exec(rest, t, errexit) else (t, x)
    case IfFile(path, yes, no) =>
      if path in s.disk then Exec(yes, s, errexit) else Exec(no, s, errexit)
  }

  /** One command of a `;` list. */
  lemma ExecThen(c: Command, rest: Shell, s: State, errexit: bool)
    ensures Exec(Then(Do(c), rest), s, errexit)
         == if s.answers == [] then (s, CutOff)
            else if errexit && !Succeeds(s.disk, c, s.answers[0]) then (Step(s, c), Aborted)
            else Exec(rest, Step(s, c), errexit)
  {
    var (t, x) := Exec(Do(c), s, errexit);
  }

  /** One command of a `&&` list. */
  lemma ExecAnd(c: Command, rest: Shell, s: State, errexit: bool)
    ensures Exec(AndThen(Do(c), rest), s, errexit)
         == if s.answers == [] then (s, CutOff)
            else if !Succeeds(s.disk, c, s.answers[0]) then (Step(s, c), Failure)
            else Exec(rest, Step(s, c), errexit)
  {
    var (t, x) := Exec(Do(c), s, false);
  }

  // ---- the scripts ----

  function InstallScript(staged: Path, target: Path, tmp: Path): Shell {
    Then(Do(Cp(staged, tmp)), Then(Do(Chmod(tmp)), Then(Do(Attributes(tmp)), InstallTail(target, tmp))))
  }

  function InstallTail(target: Path, tmp: Path): Shell {
    Then(Do(Mv(tmp, target)), Then(Do(Sync), Do(Echo("INSTALLED"))))
  }

  /** No `set -e` here: the `cp` is not checked. */
  function BackupScript(target: Path, backup: Path): Shell {
    Then(Do(Cp(target, backup)), Then(Do(Chmod(backup)), Then(Do(Sync), Do(Echo("BACKED_UP")))))
  }

  /** The `;` after the first `&&` list starts a new list: the `cp` is not checked. */
  function RollbackScript(backup: Path, target: Path, restore: bool): Shell {
    if restore then
      IfFile(backup,
        Then(CopyBack(backup, target + ".arttmp"), RenameTail(target)),
        Do(Echo("NO_BACKUP")))
    else
      Then(Do(Rm(target)), Then(Do(Sync), Do(Echo("REMOVED"))))
  }

  function CopyBack(backup: Path, tmp: Path): Shell {
    AndThen(Do(Cp(backup, tmp)), AndThen(Do(Chmod(tmp)), Do(Attributes(tmp))))
  }

  function RenameTail(target: Path): Shell {
    AndThen(Do(Sync), AndThen(Do(Mv(target + ".arttmp", target)), Do(Echo("ROLLED_BACK"))))
  }

  /** The rule of `run_privileged`: exit status 0 and the sentinel on stdout. */
  predicate Accepted(s: State, x: Exit, sentinel: string) {
    x.Success? && sentinel in s.out
  }

  // ---- what the scripts do to the target ----

  /** A copy that claims success is complete. */
  predicate Honest(d: Disk, c: Command, a: Answer) {
    c.Cp? && Succeeds(d, c, a) ==> a.left == Some(d[c.from])
  }

  ghost predicate TargetIn(trace: seq<Disk>, target: Path, allowed: set<Option<Bytes>>) {
    forall d <- trace :: Content(d, target) in allowed
  }

  lemma TargetInStep(s: State, c: Command, target: Path, allowed: set<Option<Bytes>>)
    requires s.answers != []
    ensures TargetIn(Step(s, c).trace, target, allowed) <==>
              && TargetIn(s.trace, target, allowed)
              && Content(Middle(s.disk, c, s.answers[0]), target) in allowed
              && Content(Step(s, c).disk, target) in allowed
  {
    var a := s.answers[0];
    var m, d := Middle(s.disk, c, a), Perform(s.disk, c, a);
    assert Step(s, c).trace == s.trace + [m, d];
    assert m in Step(s, c).trace && d in Step(s, c).trace;
  }

  /** `n` commands in a row succeed, the first with the answer number `from`. */
  predicate Oks(a: seq<Answer>, from: nat, n: nat) {
    from + n <= |a| && forall i | from <= i < from + n :: a[i].ok
  }

  /** The answers with which `install` gets as far as its rename. */
  predicate Renames(a: seq<Answer>) {
    |a| >= 4 && a[0].left.Some? && a[0].ok && a[1].ok && a[3].ok
  }

  /** What `install` leaves in the temporary file. */
  function InstallTmp(a: seq<Answer>, before: Option<Bytes>): Option<Bytes> {
    if Renames(a) then None else if a != [] && a[0].left.Some? then a[0].left else before
  }

  /** What `install` does, from its answers alone: no promise of its `cp` is needed. */
  lemma InstallEffect(staged: Path, target: Path, tmp: Path, s: State)
    requires tmp != target && tmp != staged && staged in s.disk
    ensures var a, (t, x) := s.answers, Exec(InstallScript(staged, target, tmp), s, true);
            && Content(t.disk, target) == (if Renames(a) then a[0].left else Content(s.disk, target))
            && Content(t.disk, tmp) == InstallTmp(a, Content(s.disk, tmp))
            && (forall p :: p != target && p != tmp ==> Content(t.disk, p) == Content(s.disk, p))
  {
    var tail := Then(Do(Attributes(tmp)), InstallTail(target, tmp));
    ExecThen(Cp(staged, tmp), Then(Do(Chmod(tmp)), tail), s, true);
    if s.answers != [] {
      var s1 := Step(s, Cp(staged, tmp));
      ExecThen(Chmod(tmp), tail, s1, true);
      if s1.answers != [] && Succeeds(s.disk, Cp(staged, tmp), s.answers[0]) {
        InstallTailEffect(target, tmp, Step(s1, Chmod(tmp)), s.answers[0].left.value);
      }
    }
  }

  lemma InstallTailEffect(target: Path, tmp: Path, s: State, copied: Bytes)
    requires tmp != target && tmp in s.disk && s.disk[tmp] == copied
    ensures var (t, x) := Exec(Then(Do(Attributes(tmp)), InstallTail(target, tmp)), s, true);
            var renamed := |s.answers| >= 2 && s.answers[1].ok;
            && Content(t.disk, target) == (if renamed then Some(copied) else Content(s.disk, target))
            && Content(t.disk, tmp) == (if renamed then None else Some(copied))
            && (forall p :: p != target && p != tmp ==> Content(t.disk, p) == Content(s.disk, p))
  {
    ExecThen(Attributes(tmp), InstallTail(target, tmp), s, true);
    if s.answers != [] {
      var s1 := Step(s, Attributes(tmp));
      ExecThen(Mv(tmp, target), Then(Do(Sync), Do(Echo("INSTALLED"))), s1, true);
      if s1.answers != [] {
        ExecThen(Sync, Do(Echo("INSTALLED")), Step(s1, Mv(tmp, target)), true);
      }
    }
  }

  /** What readers of the target can see of `install`, and when it is accepted. */
  lemma InstallSeen(staged: Path, target: Path, tmp: Path, s: State, allowed: set<Option<Bytes>>)
    requires tmp != target && tmp != staged && staged in s.disk && s.trace == [] && s.out == []
    requires Content(s.disk, target) in allowed
    ensures var a, (t, x) := s.answers, Exec(InstallScript(staged, target, tmp), s, true);
            && (TargetIn(t.trace, target, allowed) <==> (Renames(a) ==> a[0].left in allowed))
            && (Accepted(t, x, "INSTALLED") <==> Renames(a) && Oks(a, 3, 3))
  {
    var tail := Then(Do(Attributes(tmp)), InstallTail(target, tmp));
    ExecThen(Cp(staged, tmp), Then(Do(Chmod(tmp)), tail), s, true);
    if s.answers != [] {
      var s1 := Step(s, Cp(staged, tmp));
      TargetInStep(s, Cp(staged, tmp), target, allowed);
      ExecThen(Chmod(tmp), tail, s1, true);
      if s1.answers != [] && Succeeds(s.disk, Cp(staged, tmp), s.answers[0]) {
        TargetInStep(s1, Chmod(tmp), target, allowed);
        InstallTailSeen(target, tmp, Step(s1, Chmod(tmp)), s.answers[0].left, allowed);
      }
    }
  }

  lemma InstallTailSeen(target: Path, tmp: Path, s: State, copied: Option<Bytes>, allowed: set<Option<Bytes>>)
    requires tmp != target && tmp in s.disk && Content(s.disk, tmp) == copied && s.out == []
    requires TargetIn(s.trace, target, allowed) && Content(s.disk, target) in allowed
    ensures var a, (t, x) := s.answers, Exec(Then(Do(Attributes(tmp)), InstallTail(target, tmp)), s, true);
            && (TargetIn(t.trace, target, allowed) <==> (|a| >= 2 && a[1].ok ==> copied in allowed))
            && (Accepted(t, x, "INSTALLED") <==> Oks(a, 1, 3))
  {
    ExecThen(Attributes(tmp), InstallTail(target, tmp), s, true);
    if s.answers != [] {
      var s1 := Step(s, Attributes(tmp));
      TargetInStep(s, Attributes(tmp), target, allowed);
      ExecThen(Mv(tmp, target), Then(Do(Sync), Do(Echo("INSTALLED"))), s1, true);
      if s1.answers != [] {
        TargetInStep(s1, Mv(tmp, target), target, allowed);
        SyncAndSay("INSTALLED", Step(s1, Mv(tmp, target)), true, target, allowed);
      }
    }
  }

  /** The end of three scripts: `sync; echo word`. */
  lemma SyncAndSay(word: string, s: State, errexit: bool, target: Path, allowed: set<Option<Bytes>>)
    requires s.out == [] && (TargetIn(s.trace, target, allowed) ==> Content(s.disk, target) in allowed)
    ensures var a, (t, x) := s.answers, Exec(Then(Do(Sync), Do(Echo(word))), s, errexit);
            && t.disk == s.disk
            && (TargetIn(t.trace, target, allowed) <==> TargetIn(s.trace, target, allowed))
            && (Accepted(t, x, word) <==> |a| >= 2 && (errexit ==> a[0].ok) && a[1].ok)
  {
    ExecThen(Sync, Do(Echo(word)), s, errexit);
    if s.answers != [] {
      var s1 := Step(s, Sync);
      TargetInStep(s, Sync, target, allowed);
      if s1.answers != [] {
        TargetInStep(s1, Echo(word), target, allowed);
      }
    }
  }

  /**
   `install`, cut off anywhere: readers of the target see its prior state or
   the complete staged bytes, and nothing else; if the script is accepted it is
   the staged bytes.
   */
  lemma InstallAtomic(staged: Path, target: Path, tmp: Path, s: State)
    requires tmp != staged && tmp != target && staged != target
    requires s.trace == [] && s.out == []
    requires s.answers != [] ==> Honest(s.disk, Cp(staged, tmp), s.answers[0])
    ensures var (t, x) := Exec(InstallScript(staged, target, tmp), s, true);
            && TargetIn(t.trace, target, {Content(s.disk, target), Content(s.disk, staged)})
            && Content(t.disk, target) in {Content(s.disk, target), Content(s.disk, staged)}
            && (Accepted(t, x, "INSTALLED") ==> staged in s.disk && Content(t.disk, target) == Content(s.disk, staged))
            && (forall p :: p != target && p != tmp ==> Content(t.disk, p) == Content(s.disk, p))
  {
    if staged in s.disk {
      InstallEffect(staged, target, tmp, s);
      InstallSeen(staged, target, tmp, s, {Content(s.disk, target), Content(s.disk, staged)});
    } else {
      ExecThen(Cp(staged, tmp), Then(Do(Chmod(tmp)), Then(Do(Attributes(tmp)), InstallTail(target, tmp))), s, true);
    }
  }

  /** `backup` never touches its source; what it saves is what its unchecked `cp` leaves. */
  lemma BackupEffect(target: Path, backup: Path, s: State)
    requires target != backup && target in s.disk && s.trace == [] && s.out == []
    ensures var a, (t, x) := s.answers, Exec(BackupScript(target, backup), s, false);
            && TargetIn(t.trace, target, {Content(s.disk, target)})
            && (forall p :: p != backup ==> Content(t.disk, p) == Content(s.disk, p))
            && Content(t.disk, backup) == (if a != [] && a[0].left.Some? then a[0].left else Content(s.disk, backup))
            && (Accepted(t, x, "BACKED_UP") <==> |a| >= 4 && a[3].ok)
  {
    var only := {Content(s.disk, target)};
    ExecThen(Cp(target, backup), Then(Do(Chmod(backup)), Then(Do(Sync), Do(Echo("BACKED_UP")))), s, false);
    if s.answers != [] {
      var s1 := Step(s, Cp(target, backup));
      TargetInStep(s, Cp(target, backup), target, only);
      ExecThen(Chmod(backup), Then(Do(Sync), Do(Echo("BACKED_UP"))), s1, false);
      if s1.answers != [] {
        TargetInStep(s1, Chmod(backup), target, only);
        SyncAndSay("BACKED_UP", Step(s1, Chmod(backup)), false, target, only);
      }
    }
  }

  /** The bytes `rollback` is about to rename onto the target. */
  function RolledBackBytes(d: Disk, backup: Path, target: Path, a: Answer): Option<Bytes> {
    Content(Perform(d, Cp(backup, target + ".arttmp"), a), target + ".arttmp")
  }

  /** How many commands of the unchecked list `cp && chmod && attributes` are run. */
  function CopyBackSteps(a: seq<Answer>): nat {
    if a == [] || !a[0].ok || a[0].left.None? then 1 else if |a| == 1 || !a[1].ok then 2 else 3
  }

  /** The answers with which `rollback` comes to its rename, and those with which it says so. */
  predicate RenamesBack(a: seq<Answer>) {
    Oks(a, CopyBackSteps(a), 2)
  }

  predicate SaysRolledBack(a: seq<Answer>) {
    Oks(a, CopyBackSteps(a), 3)
  }

  lemma RenameTailSeen(target: Path, s: State, was: Option<Bytes>, allowed: set<Option<Bytes>>)
    requires s.out == [] && TargetIn(s.trace, target, allowed) && Content(s.disk, target) in allowed
    requires Content(s.disk, target + ".arttmp") == was
    ensures var a, (t, x) := s.answers, Exec(RenameTail(target), s, false);
            var renamed := was.Some? && Oks(a, 0, 2);
            && Content(t.disk, target) == (if renamed then was else Content(s.disk, target))
            && (TargetIn(t.trace, target, allowed) <==> (renamed ==> was in allowed))
            && (Accepted(t, x, "ROLLED_BACK") <==> was.Some? && Oks(a, 0, 3))
  {
    var tmp := target + ".arttmp";
    assert |tmp| != |target|;
    var say := Do(Echo("ROLLED_BACK"));
    ExecAnd(Sync, AndThen(Do(Mv(tmp, target)), say), s, false);
    if s.answers != [] {
      var s1 := Step(s, Sync);
      TargetInStep(s, Sync, target, allowed);
      ExecAnd(Mv(tmp, target), say, s1, false);
      if s1.answers != [] {
        var s2 := Step(s1, Mv(tmp, target));
        TargetInStep(s1, Mv(tmp, target), target, allowed);
        if s2.answers != [] {
          TargetInStep(s2, Echo("ROLLED_BACK"), target, allowed);
        }
      }
    }
  }

  /** The unchecked list leaves the target alone. */
  lemma CopyBackSeen(backup: Path, target: Path, s: State, allowed: set<Option<Bytes>>)
    requires backup in s.disk && backup != target + ".arttmp" && s.answers != [] && s.out == [] && s.trace == []
    requires Content(s.disk, target) in allowed
    ensures var a, (t, x) := s.answers, Exec(CopyBack(backup, target + ".arttmp"), s, false);
            && t.out == [] && TargetIn(t.trace, target, allowed)
            && Content(t.disk, target) == Content(s.disk, target)
            && Content(t.disk, target + ".arttmp") == RolledBackBytes(s.disk, backup, target, a[0])
            && !x.Aborted? && (x.CutOff? <==> |a| < CopyBackSteps(a))
            && (!x.CutOff? ==> t.answers == a[CopyBackSteps(a)..])
  {
    var tmp := target + ".arttmp";
    assert |tmp| != |target|;
    ExecAnd(Cp(backup, tmp), AndThen(Do(Chmod(tmp)), Do(Attributes(tmp))), s, false);
    var s1 := Step(s, Cp(backup, tmp));
    TargetInStep(s, Cp(backup, tmp), target, allowed);
    ExecAnd(Chmod(tmp), Do(Attributes(tmp)), s1, false);
    if s1.answers != [] {
      var s2 := Step(s1, Chmod(tmp));
      TargetInStep(s1, Chmod(tmp), target, allowed);
      if s2.answers != [] {
        TargetInStep(s2, Attributes(tmp), target, allowed);
      }
    }
  }

  /**
   `rollback` with a backup, from its answers alone: what it renames onto the
   target are the bytes its unchecked `cp` left in the temporary file, or the
   ones that were there if the `cp` did not open it.
   */
  lemma RestoreEffect(backup: Path, target: Path, s: State, allowed: set<Option<Bytes>>)
    requires backup != target && backup != target + ".arttmp" && s.trace == [] && s.out == []
    requires Content(s.disk, target) in allowed
    ensures var a, (t, x) := s.answers, Exec(RollbackScript(backup, target, true), s, false);
            var moved := if backup in s.disk && a != [] then RolledBackBytes(s.disk, backup, target, a[0]) else None;
            var renamed := moved.Some? && RenamesBack(a);
            && Content(t.disk, target) == (if renamed then moved else Content(s.disk, target))
            && (TargetIn(t.trace, target, allowed) <==> (renamed ==> moved in allowed))
            && (Accepted(t, x, "ROLLED_BACK") <==> moved.Some? && SaysRolledBack(a))
  {
    var tmp := target + ".arttmp";
    if backup in s.disk && s.answers != [] {
      CopyBackSeen(backup, target, s, allowed);
      var (u, y) := Exec(CopyBack(backup, tmp), s, false);
      if !y.CutOff? {
        RenameTailSeen(target, u, RolledBackBytes(s.disk, backup, target, s.answers[0]), allowed);
      }
    } else if s.answers == [] {
      ExecAnd(Cp(backup, tmp), AndThen(Do(Chmod(tmp)), Do(Attributes(tmp))), s, false);
    } else {
      TargetInStep(s, Echo("NO_BACKUP"), target, allowed);
    }
  }

  /** `rollback` without a backup: the target is gone exactly when `rm` worked or there was nothing. */
  lemma RemoveEffect(backup: Path, target: Path, s: State, allowed: set<Option<Bytes>>)
    requires s.trace == [] && s.out == [] && {Content(s.disk, target), None} <= allowed
    ensures var a, (t, x) := s.answers, Exec(RollbackScript(backup, target, false), s, false);
            && TargetIn(t.trace, target, allowed)
            && Content(t.disk, target) == (if a != [] && a[0].ok then None else Content(s.disk, target))
            && (Accepted(t, x, "REMOVED") <==> |a| >= 3 && a[2].ok)
  {
    ExecThen(Rm(target), Then(Do(Sync), Do(Echo("REMOVED"))), s, false);
    if s.answers != [] {
      TargetInStep(s, Rm(target), target, allowed);
      SyncAndSay("REMOVED", Step(s, Rm(target)), false, target, allowed);
    }
  }
}
