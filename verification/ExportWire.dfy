/**
 What a transmission is worth when files stop short on the way: exactly when the
 agent, and exactly when the script, ends up with the files that were to be sent.
 Both proofs count bytes: no header line is shorter than the printed one, so a
 reader that finds every file has used up every byte of every file.
 */
module ExportWire {
  import opened ExportStream
  import opened ProcText
  import opened Wrappers

  /** A file to be sent, and what gets through of its content. */
  datatype Transfer = Transfer(file: Exported, through: string) {
    predicate Whole() {
      through == file.content
    }

    function Missing(): string {
      if |through| <= |file.content| then file.content[|through|..] else ""
    }
  }

  predicate Possible(ts: seq<Transfer>) {
    forall t <- ts :: t.through <= t.file.content && OneLine(t.file)
  }

  predicate AllWhole(ts: seq<Transfer>) {
    forall t <- ts :: t.Whole()
  }

  function Sent(t: Transfer): string {
    HeaderLine(t.file) + "\n" + t.through
  }

  function Wire(ts: seq<Transfer>): string {
    if ts == [] then "DONE\n" else Sent(ts[0]) + Wire(ts[1..])
  }

  function Files(ts: seq<Transfer>): seq<Exported> {
    if ts == [] then [] else [ts[0].file] + Files(ts[1..])
  }

  lemma {:induction false} FilesAre(ts: seq<Transfer>)
    ensures |Files(ts)| == |ts| && forall i | 0 <= i < |ts| :: Files(ts)[i] == ts[i].file
  {
    if ts != [] {
      FilesAre(ts[1..]);
    }
  }

  lemma {:induction false} WholeWire(ts: seq<Transfer>)
    requires AllWhole(ts)
    ensures Wire(ts) == Stream(Files(ts))
  {
    if ts != [] {
      assert ts[0] in ts;
      WholeWire(ts[1..]);
      StreamFirst(ts[0].file, Files(ts[1..]));
    }
  }

  lemma StreamFirst(f: Exported, fs: seq<Exported>)
    ensures Stream([f] + fs) == HeaderLine(f) + "\n" + f.content + Stream(fs)
  {
    assert ([f] + fs)[1..] == fs;
  }

  /** What is sent is never longer than the stream, and as long only if every file gets through. */
  lemma {:induction false} WireIsShorter(ts: seq<Transfer>)
    requires Possible(ts)
    ensures |Wire(ts)| <= |Stream(Files(ts))|
    ensures |Wire(ts)| == |Stream(Files(ts))| ==> AllWhole(ts)
  {
    if ts != [] {
      assert ts[0] in ts;
      WireIsShorter(ts[1..]);
      StreamFirst(ts[0].file, Files(ts[1..]));
      assert |Wire(ts)| == |HeaderLine(ts[0].file)| + 1 + |ts[0].through| + |Wire(ts[1..])|;
      if |Wire(ts)| == |Stream(Files(ts))| {
        assert ts[0].Whole();
        assert forall t <- ts :: t == ts[0] || t in ts[1..];
      }
    }
  }

  predicate EndsLine(s: string) {
    s != "" && s[|s| - 1] == '\n'
  }

  lemma {:induction false} WireEndsLine(ts: seq<Transfer>)
    ensures EndsLine(Wire(ts))
  {
    if ts != [] {
      WireEndsLine(ts[1..]);
    }
  }

  // ---- no header is shorter than the printed one ----

  lemma {:induction false} DecIsShortest(s: string, n: nat)
    requires s != "" && Value(s, 10) == Some(n)
    ensures |Dec(n)| <= |s|
    decreases |s|
  {
    if n >= 10 {
      var front := s[..|s| - 1];
      assert Value(front, 10) == Some(n / 10);
      assert front != "";
      DecIsShortest(front, n / 10);
    }
  }

  lemma PyIntIsShortest(s: string, n: nat)
    requires PyInt(s) == Some(n)
    ensures |Dec(n)| <= |s|
  {
    DecIsShortest(if s[0] == '+' then s[1..] else s, n);
  }

  lemma FieldsLength(rest: string)
    requires Fields(rest).Some?
    ensures var (size, pkg, name) := Fields(rest).value; |rest| == |size| + 1 + |pkg| + 1 + |name|
  {
    FindSpec(rest, ' ');
    var more := Cut(rest).value.1;
    FindSpec(more, ' ');
  }

  /** A line that the script takes a file from. */
  lemma PyHeaderIsLong(line: string, f: Exported)
    requires PyRead(line) == File(|f.content|, f.pkg, f.name)
    ensures |HeaderLine(f)| <= |line|
  {
    FieldsLength(line[2..]);
    PyIntIsShortest(Fields(line[2..]).value.0, |f.content|);
  }

  // ---- the agent ----

  lemma LineSplits(s: string, line: string, rest: string)
    requires EndsLine(s) && NextLine(s) == Ok(Some((line, rest)))
    ensures |line| + 1 + |rest| == |s| && (rest == "" || EndsLine(rest))
  {
    FindSpec(s, '\n');
  }

  lemma EndOfRest(rest: string, size: nat)
    requires rest == "" || EndsLine(rest)
    requires size <= |rest|
    ensures rest[size..] == "" || EndsLine(rest[size..])
  {
  }

  /** If the agent accepts `s`, the files it takes fit into it. */
  predicate FitsInto(s: string, package: string, total: nat) {
    RustDecode(s, package, total).1 == None ==> |Stream(RustDecode(s, package, total).0)| <= |s|
  }

  /** A line that ends the stream or starts a file is as long as it has to be. */
  predicate LongEnough(step: RustLine, line: string, package: string) {
    && (step.Done? ==> |line| >= 4)
    && (step.Take? ==> 2 + |Dec(step.size)| + 1 + |package| + 1 + |step.name| <= |line|)
  }

  lemma StepIsLong(line: string, package: string, total: nat)
    ensures LongEnough(RustRead(line, package, total), line, package)
  {
    if RustRead(line, package, total).Take? {
      TakenAlike(line, package, total);
      FieldsLength(line[2..]);
      PyIntIsShortest(Fields(line[2..]).value.0, RustRead(line, package, total).size);
    }
  }

  lemma DecodeStep(s: string, line: string, rest: string, package: string, total: nat)
    requires NextLine(s) == Ok(Some((line, rest)))
    ensures RustDecode(s, package, total) == RustAfter(RustRead(line, package, total), rest, package, total)
  {
  }

  /** One step of the decoding of `s`, whatever it is. */
  lemma {:induction false} StepFits(s: string, line: string, rest: string, step: RustLine, package: string, total: nat)
    requires |line| + 1 + |rest| == |s| && (rest == "" || EndsLine(rest))
    requires LongEnough(step, line, package) && RustDecode(s, package, total) == RustAfter(step, rest, package, total)
    ensures FitsInto(s, package, total)
    decreases |s|, 0
  {
    match step {
      case Done => assert |Stream([])| == 5;
      case Fail(_) =>
      case Blank => AgentUsesUp(rest, package, total);
      case Take(size, name) =>
        if size <= |rest| {
          var later := RustDecode(rest[size..], package, total + size).0;
          EndOfRest(rest, size);
          AgentUsesUp(rest[size..], package, total + size);
          StreamFirst(Exported(package, name, rest[..size]), later);
        }
    }
  }

  /** On a stream that ends with a line: the files the agent takes fit into it. */
  lemma {:induction false} AgentUsesUp(s: string, package: string, total: nat)
    requires s == "" || EndsLine(s)
    ensures FitsInto(s, package, total)
    decreases |s|, 1
  {
    if s != "" && NextLine(s).Ok? {
      var (line, rest) := NextLine(s).value.value;
      LineSplits(s, line, rest);
      DecodeStep(s, line, rest, package, total);
      StepIsLong(line, package, total);
      StepFits(s, line, rest, RustRead(line, package, total), package, total);
    }
  }

  /** Exactly when the agent ends up with the files that were to be sent. */
  lemma AgentRecoversIff(ts: seq<Transfer>, package: string)
    requires Possible(ts) && ValidPackage(package)
    ensures RustDecode(Wire(ts), package, 0) == (Files(ts), None)
       <==> AllWhole(ts) && AllAccepted(Files(ts), package) && Total(Files(ts)) <= MAX_EXPORT_BYTES
  {
    if RustDecode(Wire(ts), package, 0) == (Files(ts), None) {
      WireEndsLine(ts);
      AgentUsesUp(Wire(ts), package, 0);
      WireIsShorter(ts);
      AcceptedIsReadAlike(Wire(ts), package, 0);
    } else if AllWhole(ts) && AllAccepted(Files(ts), package) && Total(Files(ts)) <= MAX_EXPORT_BYTES {
      WholeWire(ts);
      RustReadsStream(Files(ts), package, 0);
    }
  }

  /**
   The agent is no better than its `DONE`: when a file that cannot be opened is exactly as long
   as the next file with its header, both readers take the one for the other and are content.
   */
  lemma LostFileGoesUnnoticed(f: Exported, g: Exported, package: string)
    requires ValidPackage(package) && Accepted(f, package) && Accepted(g, package)
    requires |f.content| == |HeaderLine(g)| + 1 + |g.content|
    ensures var ts := [Transfer(f, ""), Transfer(g, g.content)];
            var taken := [f.(content := HeaderLine(g) + "\n" + g.content)];
            && RustDecode(Wire(ts), package, 0) == (taken, None)
            && PyDecode(Wire(ts)) == (taken, Finished)
  {
    var ts := [Transfer(f, ""), Transfer(g, g.content)];
    var h := f.(content := HeaderLine(g) + "\n" + g.content);
    WireFirst(Transfer(f, ""), [Transfer(g, g.content)]);
    WireFirst(Transfer(g, g.content), []);
    assert [Transfer(f, "")] + [Transfer(g, g.content)] == ts;
    assert [Transfer(g, g.content)] + [] == [Transfer(g, g.content)];
    assert HeaderLine(f) == HeaderLine(h);
    Regrouped(HeaderLine(f), HeaderLine(g), g.content);
    StreamFirst(h, []);
    assert [h] + [] == [h] && Stream([]) == "DONE\n";
    assert Wire(ts) == Stream([h]);
    OneIsAccepted(h, package);
    RustReadsStream([h], package, 0);
    HeaderFits(h, package);
    PyRecoversIffNoSpace([h]);
  }

  lemma WireFirst(t: Transfer, ts: seq<Transfer>)
    ensures Wire([t] + ts) == Sent(t) + Wire(ts)
  {
    assert ([t] + ts)[1..] == ts;
  }

  lemma FilesFirst(t: Transfer, ts: seq<Transfer>)
    ensures Files([t] + ts) == [t.file] + Files(ts)
  {
    assert ([t] + ts)[1..] == ts;
  }

  lemma Regrouped(a: string, b: string, c: string)
    ensures a + "\n" + "" + (b + "\n" + c + "DONE\n") == a + "\n" + (b + "\n" + c) + "DONE\n"
  {
  }

  lemma OneIsAccepted(f: Exported, package: string)
    requires Accepted(f, package)
    ensures AllAccepted([f], package) && Total([f]) <= MAX_EXPORT_BYTES
  {
    assert [f][..0] == [];
    assert Total([f]) == Total([]) + |f.content|;
  }

  // ---- the script ----

  /** Any prefix of the last line that is missing leaves an ending the script accepts. */
  lemma RestOfDone(m: nat)
    requires m <= 5
    ensures PyDecode("DONE\n"[m..]) == ([], Finished)
  {
    var s := "DONE\n"[m..];
    if m == 0 {
      assert s == "DONE\n";
      PyReadsDone();
    } else if m < 5 {
      var line := s[..4 - m];
      FindFirst(line, '\n', "");
      assert s == line + ['\n'] + "";
      assert s[5 - m..] == "";
    }
  }

  /** The script uses up every file it takes, and all but the last line. */
  lemma {:induction false} ScriptUsesUp(s: string)
    requires PyDecode(s).1 == Finished && (s == "" || EndsLine(s))
    ensures |Stream(PyDecode(s).0)| <= |s| + 5
    decreases |s|
  {
    FindSpec(s, '\n');
    if s != "" {
      var i := Find(s, '\n').value;
      var line, rest := s[..i], s[i + 1..];
      EndOfRest(s, i + 1);
      match PyRead(line) {
        case Stop(_) =>
        case Skip => ScriptUsesUp(rest);
        case File(size, pkg, name) =>
          ScriptTakes(s, line, rest, size, pkg, name);
          EndOfRest(rest, size);
          ScriptUsesUp(rest[size..]);
          StreamFirst(Exported(pkg, name, rest[..size]), PyDecode(rest[size..]).0);
          PyHeaderIsLong(line, Exported(pkg, name, rest[..size]));
      }
    }
  }

  lemma ScriptTakes(s: string, line: string, rest: string, size: nat, pkg: string, name: string)
    requires Find(s, '\n') == Some(|line|) && |line| < |s| && s[..|line|] == line && s[|line| + 1..] == rest
    requires PyRead(line) == File(size, pkg, name) && PyDecode(s).1 == Finished
    ensures size <= |rest| && PyDecode(s) == Before(Exported(pkg, name, rest[..size]), PyDecode(rest[size..]))
  {
  }

  /** No package has a space, and only the last file may miss something: what `DONE` and its line end begin with. */
  predicate Passable(ts: seq<Transfer>) {
    ts == [] ||
    (' ' !in ts[0].file.pkg && (if |ts| == 1 then ts[0].Missing() <= "DONE\n" else ts[0].Whole()) && Passable(ts[1..]))
  }

  /** A line that is shorter than the header of the first file is no header of that file. */
  lemma ShortLineLosesTheFile(ts: seq<Transfer>, s: string, line: string, after: string)
    requires ts != [] && |line| < |HeaderLine(ts[0].file)|
    requires Find(s, '\n') == Some(|line|) && |line| < |s| && s[..|line|] == line && s[|line| + 1..] == after
    requires PyDecode(after) != (Files(ts), Finished)
    ensures PyDecode(s) != (Files(ts), Finished)
  {
    if PyDecode(s) == (Files(ts), Finished) && PyRead(line).File? {
      var size, pkg, name := PyRead(line).size, PyRead(line).pkg, PyRead(line).name;
      ScriptTakes(s, line, after, size, pkg, name);
      var f := Exported(pkg, name, after[..size]);
      FirstEqual(f, PyDecode(after[size..]), ts[0].file, Files(ts[1..]));
      PyHeaderIsLong(line, f);
    }
  }

  /** Behind a cut the next header is cut as well, and its file is lost. */
  lemma CutHeaderLosesTheFile(ts: seq<Transfer>, m: nat)
    requires Possible(ts) && ts != [] && 0 < m <= 5
    ensures PyDecode(Wire(ts)[m..]) != (Files(ts), Finished)
  {
    var g, after := ts[0].file, ts[0].through + Wire(ts[1..]);
    assert ts[0] in ts;
    var line := HeaderLine(g)[m..];
    CutLine(g, after, m);
    assert Wire(ts) == HeaderLine(g) + "\n" + after;
    WireEndsLine(ts);
    SkippedIsLost(ts, line, after);
    ShortLineLosesTheFile(ts, line + "\n" + after, line, after);
  }

  lemma CutLine(g: Exported, after: string, m: nat)
    requires OneLine(g) && m <= 5
    ensures 5 <= |HeaderLine(g)|
    ensures var line := HeaderLine(g)[m..];
            var s := line + "\n" + after;
            && (HeaderLine(g) + "\n" + after)[m..] == s
            && Find(s, '\n') == Some(|line|) && s[..|line|] == line && s[|line| + 1..] == after
  {
    var line := HeaderLine(g)[m..];
    DecValue(|g.content|);
    assert '\n' !in HeaderLine(g);
    assert forall c <- line :: c in HeaderLine(g);
    FindFirst(line, '\n', after);
    assert line + ['\n'] + after == line + "\n" + after;
  }

  lemma SkippedIsLost(ts: seq<Transfer>, line: string, after: string)
    requires Possible(ts) && ts != [] && Wire(ts) == HeaderLine(ts[0].file) + "\n" + after
    requires EndsLine(Wire(ts)) && 5 <= |HeaderLine(ts[0].file)|
    ensures PyDecode(after) != (Files(ts), Finished)
  {
    if PyDecode(after) == (Files(ts), Finished) {
      EndOfRest(Wire(ts), |Wire(ts)| - |after|);
      assert Wire(ts)[|Wire(ts)| - |after|..] == after;
      ScriptUsesUp(after);
      WireIsShorter(ts);
    }
  }

  lemma PassableFirst(ts: seq<Transfer>)
    requires ts != [] && ts[0].Whole()
    ensures Passable(ts) <==> ' ' !in ts[0].file.pkg && Passable(ts[1..])
  {
    assert ts[0].Missing() == "";
  }

  /** The first header of a transmission, and what a reader finds behind it. */
  lemma FirstHeader(ts: seq<Transfer>)
    requires Possible(ts) && ts != []
    ensures var s, line := Wire(ts), HeaderLine(ts[0].file);
            && Find(s, '\n') == Some(|line|) && |line| < |s| && s[..|line|] == line
            && s[|line| + 1..] == ts[0].through + Wire(ts[1..])
            && PyRead(line) == File(|ts[0].file.content|, Shown(ts[0].file).pkg, Shown(ts[0].file).name)
  {
    var f, after := ts[0].file, ts[0].through + Wire(ts[1..]);
    assert ts[0] in ts;
    CutLine(f, after, 0);
    assert HeaderLine(f)[0..] == HeaderLine(f);
    assert Wire(ts) == HeaderLine(f) + "\n" + after;
    PyReadsHeader(f);
  }

  lemma FirstTaken(ts: seq<Transfer>)
    requires Possible(ts) && ts != [] && PyDecode(Wire(ts)).1 == Finished
    ensures var f, behind := ts[0].file, ts[0].through + Wire(ts[1..]);
            && |f.content| <= |behind|
            && PyDecode(Wire(ts)) == Before(Exported(Shown(f).pkg, Shown(f).name, behind[..|f.content|]),
                                            PyDecode(behind[|f.content|..]))
  {
    var f, behind := ts[0].file, ts[0].through + Wire(ts[1..]);
    FirstHeader(ts);
    ScriptTakes(Wire(ts), HeaderLine(f), behind, |f.content|, Shown(f).pkg, Shown(f).name);
  }

  /** If the files come out right, the rest of them comes out of what is left behind the cut. */
  lemma LeftBehindTheCut(ts: seq<Transfer>) returns (m: nat)
    requires Possible(ts) && ts != [] && !ts[0].Whole() && PyDecode(Wire(ts)) == (Files(ts), Finished)
    ensures 0 < m <= |Wire(ts[1..])| && PyDecode(Wire(ts[1..])[m..]) == (Files(ts[1..]), Finished)
  {
    var f, rest := ts[0].file, Wire(ts[1..]);
    assert ts[0] in ts;
    m := |f.content| - |ts[0].through|;
    FirstTaken(ts);
    Behind(ts[0].through, rest, |f.content|);
    FirstEqual(Exported(Shown(f).pkg, Shown(f).name, (ts[0].through + rest)[..|f.content|]), PyDecode(rest[m..]), f,
               Files(ts[1..]));
  }

  /** A file that misses something and is not the last: the files do not come out right. */
  lemma EarlyLossIsFatal(ts: seq<Transfer>)
    requires Possible(ts) && |ts| > 1 && !ts[0].Whole()
    ensures PyDecode(Wire(ts)) != (Files(ts), Finished)
  {
    if PyDecode(Wire(ts)) == (Files(ts), Finished) {
      var rest := ts[1..];
      var m := LeftBehindTheCut(ts);
      WireEndsLine(rest);
      EndOfRest(Wire(rest), m);
      ScriptUsesUp(Wire(rest)[m..]);
      WireIsShorter(rest);
      CutHeaderLosesTheFile(rest, m);
    }
  }

  lemma Behind(a: string, b: string, n: nat)
    requires |a| <= n <= |a| + |b|
    ensures (a + b)[n..] == b[n - |a|..] && (a + b)[..n] == a + b[..n - |a|]
  {
  }

  /** The last file may miss what the closing line supplies. */
  lemma LastLossIff(t: Transfer)
    requires Possible([t]) && !t.Whole()
    ensures PyDecode(Wire([t])) == ([t.file], Finished) <==> ' ' !in t.file.pkg && t.Missing() <= "DONE\n"
  {
    var f, line, size := t.file, HeaderLine(t.file), |t.file.content|;
    var m := size - |t.through|;
    assert t in [t] && [t][1..] == [] && Wire([t][1..]) == "DONE\n";
    FirstHeader([t]);
    ShownIffNoSpace(f);
    if m <= 5 {
      Behind(t.through, "DONE\n", size);
      RestOfDone(m);
      var taken := Exported(Shown(f).pkg, Shown(f).name, t.through + "DONE\n"[..m]);
      PyTakesPart(Wire([t]), |line|, taken, "DONE\n"[m..]);
      assert [taken] + [] == [taken];
      MissingIs(t.through, f.content, "DONE\n"[..m]);
    }
  }

  lemma MissingIs(a: string, whole: string, b: string)
    requires a <= whole
    ensures a + b == whole <==> whole[|a|..] == b
  {
    assert a + whole[|a|..] == whole;
    assert (a + b)[|a|..] == b;
  }

  lemma PyTakesPart(s: string, i: nat, f: Exported, rest: string)
    requires Find(s, '\n') == Some(i) && i < |s|
    requires PyRead(s[..i]) == File(|f.content|, f.pkg, f.name)
    requires |f.content| <= |s[i + 1..]| && s[i + 1..][..|f.content|] == f.content && s[i + 1..][|f.content|..] == rest
    ensures PyDecode(s) == Before(f, PyDecode(rest))
  {
  }

  /** The first file gets through: all depends on the rest. */
  lemma WholeFirst(ts: seq<Transfer>)
    requires Possible(ts) && ts != [] && ts[0].Whole()
    requires PyDecode(Wire(ts[1..])) == (Files(ts[1..]), Finished) <==> Passable(ts[1..])
    ensures PyDecode(Wire(ts)) == (Files(ts), Finished) <==> Passable(ts)
  {
    var f, rest := ts[0].file, ts[1..];
    FirstHeader(ts);
    PyTakes(Wire(ts), |HeaderLine(f)|, Shown(f), Wire(rest));
    ShownIffNoSpace(f);
    PassableFirst(ts);
    FirstEqual(Shown(f), PyDecode(Wire(rest)), f, Files(rest));
  }

  /**
   Exactly when the script ends up with the files that were to be sent: no package has a space,
   every file but the last gets through whole, and what the last one misses is supplied by `DONE`.
   */
  lemma {:induction false} ScriptRecoversIff(ts: seq<Transfer>)
    requires Possible(ts)
    ensures PyDecode(Wire(ts)) == (Files(ts), Finished) <==> Passable(ts)
  {
    if ts == [] {
      PyReadsDone();
    } else if ts[0].Whole() {
      ScriptRecoversIff(ts[1..]);
      WholeFirst(ts);
    } else if |ts| > 1 {
      EarlyLossIsFatal(ts);
    } else {
      assert ts == [ts[0]] && Files(ts) == [ts[0].file];
      LastLossIff(ts[0]);
    }
  }

  lemma FirstEqual(f: Exported, r: (seq<Exported>, PyEnd), g: Exported, fs: seq<Exported>)
    ensures Before(f, r) == ([g] + fs, Finished) <==> f == g && r == (fs, Finished)
  {
    if [f] + r.0 == [g] + fs {
      assert ([f] + r.0)[0] == f && ([f] + r.0)[1..] == r.0 && ([g] + fs)[1..] == fs;
    }
  }
}
