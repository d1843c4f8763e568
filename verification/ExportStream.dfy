/**
 The stream that carries APK files off the device: for every file a header line
 `F <size> <package> <name>` followed by the bare content, and `DONE` at the end.
 The text is a string of bytes. `PyDecode` and `RustDecode` say what the two
 readers make of a whole stream; their loops are in module `ExportReaders`.
 */
module ExportStream {
  import opened ProcText
  import opened Wrappers

  datatype Exported = Exported(pkg: string, name: string, content: string)

  function HeaderLine(f: Exported): string {
    "F " + Dec(|f.content|) + " " + f.pkg + " " + f.name
  }

  function Stream(fs: seq<Exported>): string {
    if fs == [] then "DONE\n" else HeaderLine(fs[0]) + "\n" + fs[0].content + Stream(fs[1..])
  }

  function Total(fs: seq<Exported>): nat {
    if fs == [] then 0 else Total(fs[..|fs| - 1]) + |fs[|fs| - 1].content|
  }

  // ---- header lines ----

  /** What stands before and after the first space. */
  function Cut(s: string): Option<(string, string)> {
    match Find(s, ' ')
    case None => None
    case Some(i) => FindSpec(s, ' '); Some((s[..i], s[i + 1..]))
  }

  /** The text after `F `, cut at its first two spaces. */
  function Fields(rest: string): Option<(string, string, string)> {
    match Cut(rest)
    case None => None
    case Some((size, more)) =>
      match Cut(more)
      case None => None
      case Some((pkg, name)) => Some((size, pkg, name))
  }

  lemma {:induction false} FindSpec(s: string, c: char)
    ensures match Find(s, c)
            case None => c !in s
            case Some(i) => i < |s| && s[i] == c && c !in s[..i]
  {
    if s != "" && s[0] != c {
      FindSpec(s[1..], c);
      match Find(s[1..], c) {
        case None =>
        case Some(i) => assert s[..i + 1] == [s[0]] + s[1..][..i];
      }
    }
  }

  lemma CutAt(a: string, b: string)
    requires ' ' !in a
    ensures Cut(a + " " + b) == Some((a, b))
  {
    FindFirst(a, ' ', b);
    assert (a + " " + b)[..|a|] == a;
  }

  /** Package and name as a reader sees them: a space in the package ends it. */
  function Shown(f: Exported): Exported {
    match Cut(f.pkg)
    case None => f
    case Some((pkg, more)) => Exported(pkg, more + " " + f.name, f.content)
  }

  function ShownAll(fs: seq<Exported>): seq<Exported> {
    if fs == [] then [] else [Shown(fs[0])] + ShownAll(fs[1..])
  }

  lemma ShownIffNoSpace(f: Exported)
    ensures Shown(f) == f <==> ' ' !in f.pkg
  {
    FindSpec(f.pkg, ' ');
  }

  lemma {:induction false} AllShownIffNoSpace(fs: seq<Exported>)
    ensures |ShownAll(fs)| == |fs|
    ensures ShownAll(fs) == fs <==> forall f <- fs :: ' ' !in f.pkg
  {
    if fs != [] {
      AllShownIffNoSpace(fs[1..]);
      ShownIffNoSpace(fs[0]);
      if ShownAll(fs) == fs {
        assert ShownAll(fs)[0] == Shown(fs[0]) && ShownAll(fs)[1..] == ShownAll(fs[1..]);
        assert forall f <- fs :: f == fs[0] || f in fs[1..];
      }
    }
  }

  lemma ShownCut(f: Exported)
    ensures Cut(f.pkg + " " + f.name) == Some((Shown(f).pkg, Shown(f).name))
  {
    FindSpec(f.pkg, ' ');
    match Cut(f.pkg) {
      case None => CutAt(f.pkg, f.name);
      case Some((pkg, tail)) =>
        assert f.pkg + " " + f.name == pkg + " " + (tail + " " + f.name);
        CutAt(pkg, tail + " " + f.name);
    }
  }

  lemma FieldsReadBack(f: Exported)
    ensures Fields(HeaderLine(f)[2..]) == Some((Dec(|f.content|), Shown(f).pkg, Shown(f).name))
  {
    var size, more := Dec(|f.content|), f.pkg + " " + f.name;
    DecValue(|f.content|);
    assert HeaderLine(f)[2..] == size + " " + more;
    CutAt(size, more);
    ShownCut(f);
  }

  /** A file as the module can print it: no field breaks the line. */
  predicate OneLine(f: Exported) {
    '\n' !in f.pkg && '\n' !in f.name
  }

  lemma LineOfHeader(f: Exported, rest: string)
    requires OneLine(f)
    ensures var s := HeaderLine(f) + "\n" + f.content + rest;
            && Find(s, '\n') == Some(|HeaderLine(f)|)
            && s[..|HeaderLine(f)|] == HeaderLine(f) && s[|HeaderLine(f)| + 1..] == f.content + rest
  {
    var line := HeaderLine(f);
    DecValue(|f.content|);
    FindFirst(line, '\n', f.content + rest);
    assert line + "\n" + (f.content + rest) == line + "\n" + f.content + rest;
  }

  // ---- the script's reader ----

  /** How a run of the script ends; the end of the stream counts as `DONE`. */
  datatype PyEnd =
    | Finished | ServerError(line: string) | Crashed(line: string) | Short(pkg: string, name: string, got: nat)

  /** Python's `int` on a text of digits with at most one `+`. */
  function PyInt(s: string): Option<nat> {
    var digits := if s != "" && s[0] == '+' then s[1..] else s;
    if digits == "" then None else Value(digits, 10)
  }

  datatype PyLine = Stop(end: PyEnd) | Skip | File(size: nat, pkg: string, name: string)

  function PyRead(line: string): PyLine {
    if line == "DONE" then Stop(Finished)
    else if "ERR" <= line then Stop(ServerError(line))
    else if !("F " <= line) then Skip
    else match Fields(line[2..])
      case None => Stop(Crashed(line))
      case Some((size, pkg, name)) =>
        match PyInt(size)
        case None => Stop(Crashed(line))
        case Some(n) => File(n, pkg, name)
  }

  function Before(f: Exported, r: (seq<Exported>, PyEnd)): (seq<Exported>, PyEnd) {
    ([f] + r.0, r.1)
  }

  function PyDecode(s: string): (seq<Exported>, PyEnd)
    decreases |s|, 0
  {
    match Find(s, '\n')
    case None => ([], Finished)
    case Some(i) =>
      FindSpec(s, '\n');
      PyAfter(PyRead(s[..i]), s[i + 1..])
  }

  function PyAfter(line: PyLine, rest: string): (seq<Exported>, PyEnd)
    decreases |rest|, 1
  {
    match line
    case Stop(end) => ([], end)
    case Skip => PyDecode(rest)
    case File(size, pkg, name) =>
      if |rest| < size then ([], Short(pkg, name, |rest|))
      else Before(Exported(pkg, name, rest[..size]), PyDecode(rest[size..]))
  }

  lemma PyReadsHeader(f: Exported)
    ensures PyRead(HeaderLine(f)) == File(|f.content|, Shown(f).pkg, Shown(f).name)
  {
    var line := HeaderLine(f);
    FieldsReadBack(f);
    DecValue(|f.content|);
    assert Dec(|f.content|)[0] in Dec(|f.content|);
    assert line[0] == 'F' && line[1] == ' ';
    assert "F " <= line;
  }

  lemma PyReadsDone()
    ensures PyDecode("DONE\n") == ([], Finished)
  {
    FindFirst("DONE", '\n', "");
    assert "DONE" + "\n" + "" == "DONE\n";
    assert "DONE\n"[..4] == "DONE";
  }

  lemma PyTakes(s: string, i: nat, f: Exported, rest: string)
    requires Find(s, '\n') == Some(i) && i < |s|
    requires PyRead(s[..i]) == File(|f.content|, f.pkg, f.name) && s[i + 1..] == f.content + rest
    ensures PyDecode(s) == Before(f, PyDecode(rest))
  {
    assert (f.content + rest)[..|f.content|] == f.content && (f.content + rest)[|f.content|..] == rest;
  }

  /** Whatever the contents are, the script recovers the files it was sent, up to spaces in package names. */
  lemma {:induction false} PyReadsStream(fs: seq<Exported>)
    requires forall f <- fs :: OneLine(f)
    ensures PyDecode(Stream(fs)) == (ShownAll(fs), Finished)
  {
    if fs == [] {
      PyReadsDone();
    } else {
      var f, rest := fs[0], Stream(fs[1..]);
      LineOfHeader(f, rest);
      PyReadsHeader(f);
      PyReadsStream(fs[1..]);
      PyTakes(Stream(fs), |HeaderLine(f)|, Shown(f), rest);
    }
  }

  /** Exactly when the script recovers the very files. */
  lemma PyRecoversIffNoSpace(fs: seq<Exported>)
    requires forall f <- fs :: OneLine(f)
    ensures PyDecode(Stream(fs)) == (fs, Finished) <==> forall f <- fs :: ' ' !in f.pkg
  {
    PyReadsStream(fs);
    AllShownIffNoSpace(fs);
  }

  // ---- the agent's reader ----

  const MAX_LINE_BYTES: nat := 6 * 1024 * 1024
  const MAX_APK_BYTES: nat := 512 * 1024 * 1024
  const MAX_EXPORT_BYTES: nat := 2 * 1024 * 1024 * 1024
  const U64_MAX: nat := 0xffff_ffff_ffff_ffff

  datatype ExportError =
    | Truncated
    | LineTooLong
    | ModuleFailed(line: string)
    | BadShape(line: string)
    | BadSize
    | NoPackage
    | NoName
    | OtherPackage
    | UnsafeName
    | OverLimit

  predicate NameChar(c: char) {
    'a' <= c <= 'z' || 'A' <= c <= 'Z' || '0' <= c <= '9' || c == '.' || c == '_' || c == '-'
  }

  predicate ValidPackage(p: string) {
    0 < |p| <= 256 && forall c <- p :: NameChar(c)
  }

  predicate ValidFileName(n: string) {
    0 < |n| <= 200 && n != "." && n != ".." && forall c <- n :: NameChar(c)
  }

  /** One line and what follows it; None at the end of the stream. A last line needs no line end. */
  function NextLine(s: string): (r: Result<Option<(string, string)>, ExportError>)
    ensures r.Ok? && r.value.Some? ==> |r.value.value.1| < |s|
  {
    var i := match Find(s, '\n') case None => |s| case Some(i) => i;
    FindSpec(s, '\n');
    if i > MAX_LINE_BYTES then Err(LineTooLong)
    else if s == "" then Ok(None)
    else Ok(Some((s[..i], if i == |s| then "" else s[i + 1..])))
  }

  function ParseHeader(line: string): Result<(nat, string, string), ExportError> {
    if line != "F" && !("F " <= line) then Err(BadShape(line))
    else if line == "F" then Err(BadSize)
    else
      var size := match Cut(line[2..]) case None => line[2..] case Some((size, _)) => size;
      match ParseUnsigned(size, 10, U64_MAX)
      case None => Err(BadSize)
      case Some(n) =>
        match Cut(line[2..])
        case None => Err(NoPackage)
        case Some((_, more)) =>
          match Cut(more)
          case None => Err(NoName)
          case Some((pkg, name)) => Ok((n, pkg, name))
  }

  /** What one non-final line asks for, given the bytes taken so far. */
  function Admit(line: string, package: string, total: nat): Result<(nat, string), ExportError> {
    match ParseHeader(line)
    case Err(e) => Err(e)
    case Ok((size, pkg, name)) =>
      if pkg != package then Err(OtherPackage)
      else if !ValidFileName(name) then Err(UnsafeName)
      else if size > MAX_APK_BYTES || total + size > MAX_EXPORT_BYTES then Err(OverLimit)
      else Ok((size, name))
  }

  datatype RustLine = Done | Blank | Fail(e: ExportError) | Take(size: nat, name: string)

  function RustRead(line: string, package: string, total: nat): RustLine {
    if line == "DONE" then Done
    else if "ERR" <= line then Fail(ModuleFailed(line))
    else if line == "" then Blank
    else match Admit(line, package, total)
      case Err(e) => Fail(e)
      case Ok((size, name)) => Take(size, name)
  }

  /** The files taken before the stream ended and, if it ended badly, why. */
  function RustDecode(s: string, package: string, total: nat): (seq<Exported>, Option<ExportError>)
    decreases |s|, 0
  {
    match NextLine(s)
    case Err(e) => ([], Some(e))
    case Ok(None) => ([], Some(Truncated))
    case Ok(Some((line, rest))) => RustAfter(RustRead(line, package, total), rest, package, total)
  }

  function RustAfter(line: RustLine, rest: string, package: string, total: nat)
      : (seq<Exported>, Option<ExportError>)
    decreases |rest|, 1
  {
    match line
    case Done => ([], None)
    case Blank => RustDecode(rest, package, total)
    case Fail(e) => ([], Some(e))
    case Take(size, name) =>
      if |rest| < size then ([], Some(Truncated))
      else
        var later := RustDecode(rest[size..], package, total + size);
        ([Exported(package, name, rest[..size])] + later.0, later.1)
  }

  // ---- the two readers agree ----

  /** A line the agent takes a file from, the script reads the same way. */
  lemma TakenAlike(line: string, package: string, total: nat)
    requires RustRead(line, package, total).Take?
    ensures PyRead(line) == File(RustRead(line, package, total).size, package, RustRead(line, package, total).name)
  {
    assert "F " <= line;
    assert line[0] == 'F';
  }

  lemma TotalFirst(f: Exported, fs: seq<Exported>)
    ensures Total([f] + fs) == |f.content| + Total(fs)
    decreases |fs|
  {
    var all := [f] + fs;
    if fs == [] {
      assert all[..0] == [] && all[0] == f;
    } else {
      TotalFirst(f, fs[..|fs| - 1]);
      assert all[..|all| - 1] == [f] + fs[..|fs| - 1];
    }
  }

  predicate Accepted(f: Exported, package: string) {
    f.pkg == package && ValidFileName(f.name) && |f.content| <= MAX_APK_BYTES
  }

  predicate AllAccepted(fs: seq<Exported>, package: string) {
    forall f <- fs :: Accepted(f, package)
  }

  predicate ReadAlike(s: string, package: string, total: nat) {
    var (fs, end) := RustDecode(s, package, total);
    PyDecode(s) == (fs, Finished) && AllAccepted(fs, package) && total + Total(fs) <= MAX_EXPORT_BYTES
  }

  lemma DoneIsReadAlike(s: string, line: string, rest: string, package: string, total: nat)
    requires NextLine(s) == Ok(Some((line, rest))) && RustRead(line, package, total).Done?
    requires total <= MAX_EXPORT_BYTES
    ensures ReadAlike(s, package, total)
  {
    FindSpec(s, '\n');
    assert s[..|s|] == s;
  }

  lemma BlankIsReadAlike(s: string, line: string, rest: string, package: string, total: nat)
    requires NextLine(s) == Ok(Some((line, rest))) && RustRead(line, package, total).Blank?
    requires ReadAlike(rest, package, total)
    ensures ReadAlike(s, package, total)
  {
    FindSpec(s, '\n');
    assert s[..|s|] == s;
  }

  lemma FileIsReadAlike(s: string, line: string, rest: string, size: nat, name: string, package: string, total: nat)
    requires NextLine(s) == Ok(Some((line, rest))) && RustRead(line, package, total) == Take(size, name)
    requires size <= |rest| && RustDecode(rest[size..], package, total + size).1 == None
    requires ReadAlike(rest[size..], package, total + size)
    ensures ReadAlike(s, package, total)
  {
    var f := Exported(package, name, rest[..size]);
    FindSpec(s, '\n');
    if Find(s, '\n') == None {
      assert false;
    }
    TakenAlike(line, package, total);
    var later := RustDecode(rest[size..], package, total + size).0;
    RustTakes(s, line, rest, size, name, package, total);
    TotalFirst(f, later);
    PyTakes(s, |line|, f, rest[size..]);
    assert Accepted(f, package);
  }

  lemma RustTakes(s: string, line: string, rest: string, size: nat, name: string, package: string, total: nat)
    requires NextLine(s) == Ok(Some((line, rest))) && RustRead(line, package, total) == Take(size, name)
    requires size <= |rest|
    ensures var later := RustDecode(rest[size..], package, total + size);
            RustDecode(s, package, total) == ([Exported(package, name, rest[..size])] + later.0, later.1)
  {
  }

  /** What an accepted stream starts with. */
  lemma AcceptedGoesOn(s: string, package: string, total: nat) returns (line: string, rest: string, read: RustLine)
    requires RustDecode(s, package, total).1 == None
    ensures NextLine(s) == Ok(Some((line, rest))) && |rest| < |s|
    ensures read == RustRead(line, package, total) && !read.Fail?
    ensures read.Blank? ==> RustDecode(rest, package, total).1 == None
    ensures read.Take? ==>
              && read.size <= |rest| && total + read.size <= MAX_EXPORT_BYTES
              && RustDecode(rest[read.size..], package, total + read.size).1 == None
  {
    line, rest := NextLine(s).value.value.0, NextLine(s).value.value.1;
    read := RustRead(line, package, total);
  }

  lemma {:induction false} AcceptedBlank(s: string, line: string, rest: string, package: string, total: nat)
    requires NextLine(s) == Ok(Some((line, rest))) && |rest| < |s| && RustRead(line, package, total).Blank?
    requires RustDecode(rest, package, total).1 == None && total <= MAX_EXPORT_BYTES
    ensures ReadAlike(s, package, total)
    decreases |s|, 0
  {
    AcceptedIsReadAlike(rest, package, total);
    BlankIsReadAlike(s, line, rest, package, total);
  }

  lemma {:induction false} AcceptedFile(s: string, line: string, rest: string, size: nat, name: string,
                                        package: string, total: nat)
    requires NextLine(s) == Ok(Some((line, rest))) && |rest| < |s| && RustRead(line, package, total) == Take(size, name)
    requires size <= |rest| && total + size <= MAX_EXPORT_BYTES
    requires RustDecode(rest[size..], package, total + size).1 == None
    ensures ReadAlike(s, package, total)
    decreases |s|, 0
  {
    AcceptedIsReadAlike(rest[size..], package, total + size);
    FileIsReadAlike(s, line, rest, size, name, package, total);
  }

  /** On any stream at all: what the agent accepts, the script reads as the same files, and the limits hold. */
  lemma {:induction false} AcceptedIsReadAlike(s: string, package: string, total: nat)
    requires RustDecode(s, package, total).1 == None && total <= MAX_EXPORT_BYTES
    ensures ReadAlike(s, package, total)
    decreases |s|, 1
  {
    var line, rest, read := AcceptedGoesOn(s, package, total);
    if read.Done? {
      DoneIsReadAlike(s, line, rest, package, total);
    } else if read.Blank? {
      AcceptedBlank(s, line, rest, package, total);
    } else {
      AcceptedFile(s, line, rest, read.size, read.name, package, total);
    }
  }

  lemma {:induction false} DecIsShort(n: nat, digits: nat, bound: nat)
    requires digits > 0 && bound == TenTo(digits) && n < bound
    ensures |Dec(n)| <= digits
    decreases digits
  {
    if n >= 10 {
      assert digits > 1;
      DecIsShort(n / 10, digits - 1, TenTo(digits - 1));
    }
  }

  function TenTo(k: nat): nat {
    if k == 0 then 1 else 10 * TenTo(k - 1)
  }

  lemma HeaderFits(f: Exported, package: string)
    requires ValidPackage(package) && Accepted(f, package)
    ensures OneLine(f) && ' ' !in f.pkg && |HeaderLine(f)| <= MAX_LINE_BYTES
  {
    assert TenTo(3) == 1000;
    assert TenTo(6) == 1000 * TenTo(3);
    assert TenTo(9) == 1000 * TenTo(6);
    DecIsShort(|f.content|, 9, TenTo(9));
  }

  lemma RustReadsHeader(f: Exported, package: string, total: nat)
    requires ValidPackage(package) && Accepted(f, package) && total + |f.content| <= MAX_EXPORT_BYTES
    ensures RustRead(HeaderLine(f), package, total) == Take(|f.content|, f.name)
  {
    var line := HeaderLine(f);
    HeaderFits(f, package);
    FieldsReadBack(f);
    ShownIffNoSpace(f);
    ParseDec(|f.content|, U64_MAX);
    assert line[0] == 'F' && line[1] == ' ';
    assert "F " <= line;
  }

  /** What the agent makes of a header, defect by defect; the script takes any of them. */
  lemma HeaderVerdict(f: Exported, package: string, total: nat)
    requires ' ' !in f.pkg
    ensures PyRead(HeaderLine(f)) == File(|f.content|, f.pkg, f.name)
    ensures RustRead(HeaderLine(f), package, total) ==
            if |f.content| >= 0x1_0000_0000_0000_0000 then Fail(BadSize)
            else if f.pkg != package then Fail(OtherPackage)
            else if !ValidFileName(f.name) then Fail(UnsafeName)
            else if |f.content| > 0x2000_0000 || total + |f.content| > 0x8000_0000 then Fail(OverLimit)
            else Take(|f.content|, f.name)
  {
    var line := HeaderLine(f);
    FieldsReadBack(f);
    ShownIffNoSpace(f);
    PyReadsHeader(f);
    assert line[0] == 'F' && line[1] == ' ';
    assert "F " <= line;
    if |f.content| <= U64_MAX {
      ParseDec(|f.content|, U64_MAX);
    } else {
      DecValue(|f.content|);
      assert Dec(|f.content|)[0] in Dec(|f.content|);
    }
  }

  /** A stream that starts with an error line gives both readers that error and no file. */
  lemma ErrorIsTold(line: string, more: string, package: string)
    requires "ERR" <= line && '\n' !in line && |line| <= MAX_LINE_BYTES
    ensures PyDecode(line + "\n" + more) == ([], ServerError(line))
    ensures RustDecode(line + "\n" + more, package, 0) == ([], Some(ModuleFailed(line)))
  {
    var s := line + "\n" + more;
    FindFirst(line, '\n', more);
    assert line[0] == 'E';
    assert s[..|line|] == line;
  }

  lemma RustReadsDone(package: string, total: nat)
    ensures RustDecode("DONE\n", package, total) == ([], None)
  {
    FindFirst("DONE", '\n', "");
    assert "DONE" + "\n" + "" == "DONE\n";
    assert "DONE\n"[..4] == "DONE";
  }

  lemma LineOfFile(f: Exported, rest: string, package: string)
    requires ValidPackage(package) && Accepted(f, package)
    ensures NextLine(HeaderLine(f) + "\n" + f.content + rest) == Ok(Some((HeaderLine(f), f.content + rest)))
  {
    HeaderFits(f, package);
    LineOfHeader(f, rest);
  }

  lemma Halves(a: string, b: string)
    ensures (a + b)[..|a|] == a && (a + b)[|a|..] == b
  {
  }

  lemma RustTakesContent(s: string, line: string, f: Exported, rest: string, total: nat)
    requires NextLine(s) == Ok(Some((line, f.content + rest)))
    requires RustRead(line, f.pkg, total) == Take(|f.content|, f.name)
    ensures var later := RustDecode(rest, f.pkg, total + |f.content|);
            RustDecode(s, f.pkg, total) == ([f] + later.0, later.1)
  {
    Halves(f.content, rest);
    RustTakes(s, line, f.content + rest, |f.content|, f.name, f.pkg, total);
  }

  lemma FirstAccepted(fs: seq<Exported>, package: string)
    requires AllAccepted(fs, package) && fs != []
    ensures Accepted(fs[0], package) && AllAccepted(fs[1..], package)
    ensures Total(fs) == |fs[0].content| + Total(fs[1..])
  {
    assert [fs[0]] + fs[1..] == fs;
    TotalFirst(fs[0], fs[1..]);
  }

  /** Within the limits the agent recovers the very files of its package. */
  lemma {:induction false} RustReadsStream(fs: seq<Exported>, package: string, total: nat)
    requires ValidPackage(package) && AllAccepted(fs, package) && total + Total(fs) <= MAX_EXPORT_BYTES
    ensures RustDecode(Stream(fs), package, total) == (fs, None)
  {
    if fs == [] {
      RustReadsDone(package, total);
    } else {
      var f, later := fs[0], Stream(fs[1..]);
      FirstAccepted(fs, package);
      assert [f] + fs[1..] == fs;
      calc {
        RustDecode(Stream(fs), package, total);
        { LineOfFile(f, later, package); RustReadsHeader(f, package, total);
          RustTakesContent(Stream(fs), HeaderLine(f), f, later, total); }
        ([f] + RustDecode(later, package, total + |f.content|).0, RustDecode(later, package, total + |f.content|).1);
        { RustReadsStream(fs[1..], package, total + |f.content|); }
        ([f] + fs[1..], None);
      }
    }
  }

  lemma SpaceIsShown(f: Exported)
    requires Shown(f) != f
    ensures ' ' in Shown(f).name
  {
    var more := Cut(f.pkg).value.1;
    assert Shown(f).name[|more|] == ' ';
  }

  lemma {:induction false} AllShownAccepted(fs: seq<Exported>, package: string)
    requires AllAccepted(ShownAll(fs), package)
    ensures ShownAll(fs) == fs
  {
    if fs != [] {
      assert ShownAll(fs)[0] == Shown(fs[0]) && Shown(fs[0]) in ShownAll(fs);
      assert Accepted(Shown(fs[0]), package);
      if Shown(fs[0]) != fs[0] {
        SpaceIsShown(fs[0]);
        assert false;
      }
      assert forall f <- ShownAll(fs[1..]) :: f in ShownAll(fs);
      AllShownAccepted(fs[1..], package);
      assert [fs[0]] + fs[1..] == fs;
    }
  }

  /** Exactly when the agent takes what the module printed; and then it takes all of it. */
  lemma AgentTakesIff(fs: seq<Exported>, package: string)
    requires ValidPackage(package) && forall f <- fs :: OneLine(f)
    ensures RustDecode(Stream(fs), package, 0).1 == None
       <==> AllAccepted(fs, package) && Total(fs) <= MAX_EXPORT_BYTES
    ensures RustDecode(Stream(fs), package, 0).1 == None ==> RustDecode(Stream(fs), package, 0).0 == fs
  {
    if RustDecode(Stream(fs), package, 0).1 == None {
      AcceptedIsReadAlike(Stream(fs), package, 0);
      PyReadsStream(fs);
      AllShownAccepted(fs, package);
    } else if AllAccepted(fs, package) && Total(fs) <= MAX_EXPORT_BYTES {
      RustReadsStream(fs, package, 0);
    }
  }
}
