/**
 The module's printer: it walks the helper's table of `package TAB path` rows,
 cutting the buffer in place, and streams every wanted file.
 */
module ExportPrinter {
  import opened ExportStream
  import opened ExportWire
  import opened ProcText
  import opened Wrappers

  const HELPER_FAILED: string := "ERR helper failed\n"

  /** A file the module can `stat`; `sent` is how much of it gets through before streaming it stops. */
  datatype OnDisk = OnDisk(content: string, sent: nat)

  type Disk = map<string, OnDisk>

  /** The rows of a table: lines with a tab; text after the last line end is not a row. */
  function Rows(text: string): seq<(string, string)>
    decreases |text|
  {
    match Find(text, '\n')
    case None => []
    case Some(i) =>
      FindSpec(text, '\n');
      match Row(text[..i])
      case None => Rows(text[i + 1..])
      case Some(row) => [row] + Rows(text[i + 1..])
  }

  function Row(line: string): Option<(string, string)> {
    match Find(line, '\t')
    case None => None
    case Some(t) => FindSpec(line, '\t'); Some((line[..t], line[t + 1..]))
  }

  /** The part behind the last slash. */
  function BaseName(path: string): (r: string)
    ensures '/' !in r && |r| <= |path| && path[|path| - |r|..] == r
    ensures r == path || path[|path| - |r| - 1] == '/'
  {
    FindLastSpec(path, '/');
    match FindLast(path, '/')
    case None => path
    case Some(i) => path[i + 1..]
  }

  lemma {:induction false} FindLastSpec(s: string, c: char)
    ensures match FindLast(s, c)
            case None => c !in s
            case Some(i) => i < |s| && s[i] == c && c !in s[i + 1..]
  {
    if s != "" && s[|s| - 1] != c {
      FindLastSpec(s[..|s| - 1], c);
    }
  }

  predicate Wanted(pkg: string, wanted: seq<string>, all: bool) {
    all || pkg in wanted
  }

  /** The file a row stands for, if it is wanted, there and not empty. */
  function Selected(row: (string, string), wanted: seq<string>, all: bool, disk: Disk): seq<Exported> {
    if Wanted(row.0, wanted, all) && row.1 in disk && disk[row.1].content != "" then
      [Exported(row.0, BaseName(row.1), disk[row.1].content)]
    else
      []
  }

  /** The row has package and path of `f`, it is asked for, and there is something in it. */
  predicate Asks(row: (string, string), wanted: seq<string>, all: bool, disk: Disk, f: Exported) {
    && (all || row.0 in wanted)
    && row.1 in disk && disk[row.1].content != ""
    && f == Exported(row.0, BaseName(row.1), disk[row.1].content)
  }

  lemma SelectedOne(row: (string, string), wanted: seq<string>, all: bool, disk: Disk, f: Exported)
    ensures f in Selected(row, wanted, all, disk) <==> Asks(row, wanted, all, disk, f)
  {
  }

  /** Which files a request gets: those of the rows whose package is asked for, and no others. */
  lemma {:induction false} SelectedIff(rows: seq<(string, string)>, wanted: seq<string>, all: bool, disk: Disk,
                                       f: Exported)
    ensures f in AllSelected(rows, wanted, all, disk) <==> exists row <- rows :: Asks(row, wanted, all, disk, f)
  {
    if rows != [] {
      SelectedOne(rows[0], wanted, all, disk, f);
      SelectedIff(rows[1..], wanted, all, disk, f);
      assert forall row <- rows :: row == rows[0] || row in rows[1..];
    }
  }

  /** They come in the order of the table. */
  lemma {:induction false} SelectedInOrder(a: seq<(string, string)>, b: seq<(string, string)>, wanted: seq<string>,
                                           all: bool, disk: Disk)
    ensures AllSelected(a + b, wanted, all, disk)
         == AllSelected(a, wanted, all, disk) + AllSelected(b, wanted, all, disk)
  {
    if a == [] {
      assert a + b == b;
    } else {
      assert (a + b)[0] == a[0] && (a + b)[1..] == a[1..] + b;
      SelectedInOrder(a[1..], b, wanted, all, disk);
    }
  }

  function AllSelected(rows: seq<(string, string)>, wanted: seq<string>, all: bool, disk: Disk): seq<Exported> {
    if rows == [] then [] else Selected(rows[0], wanted, all, disk) + AllSelected(rows[1..], wanted, all, disk)
  }

  function Through(d: OnDisk): string {
    if d.sent < |d.content| then d.content[..d.sent] else d.content
  }

  function Printed(row: (string, string), wanted: seq<string>, all: bool, disk: Disk): string {
    var fs := Selected(row, wanted, all, disk);
    if fs == [] then "" else HeaderLine(fs[0]) + "\n" + Through(disk[row.1])
  }

  function AllPrinted(rows: seq<(string, string)>, wanted: seq<string>, all: bool, disk: Disk): string {
    if rows == [] then "" else Printed(rows[0], wanted, all, disk) + AllPrinted(rows[1..], wanted, all, disk)
  }

  function TextPrinted(text: string, wanted: seq<string>, all: bool, disk: Disk): string {
    AllPrinted(Rows(text), wanted, all, disk)
  }

  /** What a row puts on the wire. */
  function Transmitted(row: (string, string), wanted: seq<string>, all: bool, disk: Disk): seq<Transfer> {
    var fs := Selected(row, wanted, all, disk);
    if fs == [] then [] else [Transfer(fs[0], Through(disk[row.1]))]
  }

  function AllTransmitted(rows: seq<(string, string)>, wanted: seq<string>, all: bool, disk: Disk): seq<Transfer> {
    if rows == [] then [] else Transmitted(rows[0], wanted, all, disk) + AllTransmitted(rows[1..], wanted, all, disk)
  }

  /** Every file that is selected gets through whole. */
  predicate AllGetThrough(rows: seq<(string, string)>, wanted: seq<string>, all: bool, disk: Disk) {
    forall row <- rows | Selected(row, wanted, all, disk) != [] :: |disk[row.1].content| <= disk[row.1].sent
  }

  lemma PrintsTheFile(row: (string, string), wanted: seq<string>, all: bool, disk: Disk, later: seq<Transfer>)
    ensures Printed(row, wanted, all, disk) + Wire(later) == Wire(Transmitted(row, wanted, all, disk) + later)
    ensures Files(Transmitted(row, wanted, all, disk) + later) == Selected(row, wanted, all, disk) + Files(later)
  {
    var ts := Transmitted(row, wanted, all, disk);
    if ts == [] {
      assert ts + later == later && [] + Files(later) == Files(later);
    } else {
      assert ts == [ts[0]];
      WireFirst(ts[0], later);
      FilesFirst(ts[0], later);
    }
  }

  lemma WireGrows(first: string, rest: string, later: seq<Transfer>, ts: seq<Transfer>)
    requires rest + "DONE\n" == Wire(later) && first + Wire(later) == Wire(ts + later)
    ensures first + rest + "DONE\n" == Wire(ts + later)
  {
    assert first + rest + "DONE\n" == first + (rest + "DONE\n");
  }

  /** What is printed is the wire form of the selected files, each as far as it gets through. */
  lemma {:induction false} PrintsTheWire(rows: seq<(string, string)>, wanted: seq<string>, all: bool, disk: Disk)
    ensures AllPrinted(rows, wanted, all, disk) + "DONE\n" == Wire(AllTransmitted(rows, wanted, all, disk))
    ensures Files(AllTransmitted(rows, wanted, all, disk)) == AllSelected(rows, wanted, all, disk)
  {
    if rows != [] {
      var later := AllTransmitted(rows[1..], wanted, all, disk);
      PrintsTheWire(rows[1..], wanted, all, disk);
      PrintsTheFile(rows[0], wanted, all, disk, later);
      WireGrows(Printed(rows[0], wanted, all, disk), AllPrinted(rows[1..], wanted, all, disk), later,
                Transmitted(rows[0], wanted, all, disk));
    }
  }

  lemma ThroughWhole(d: OnDisk)
    ensures Through(d) <= d.content
    ensures Through(d) == d.content <==> |d.content| <= d.sent
    ensures |Through(d)| == if |d.content| <= d.sent then |d.content| else d.sent
  {
  }

  lemma BaseNameIsOneLine(path: string)
    requires '\n' !in path
    ensures '\n' !in BaseName(path)
  {
    var r := BaseName(path);
    assert forall c <- path[|path| - |r|..] :: c in path;
  }

  lemma OneTransmitted(row: (string, string), wanted: seq<string>, all: bool, disk: Disk)
    requires '\n' !in row.0 && '\n' !in row.1
    ensures Possible(Transmitted(row, wanted, all, disk))
    ensures AllWhole(Transmitted(row, wanted, all, disk)) <==> AllGetThrough([row], wanted, all, disk)
  {
    assert AllGetThrough([row], wanted, all, disk) <==>
           (Selected(row, wanted, all, disk) != [] ==> |disk[row.1].content| <= disk[row.1].sent) by {
      assert row in [row];
    }
    BaseNameIsOneLine(row.1);
    var ts := Transmitted(row, wanted, all, disk);
    if ts != [] {
      var t := ts[0];
      ThroughWhole(disk[row.1]);
      assert ts == [t] && t in ts;
    }
  }

  lemma {:induction false} Transmission(rows: seq<(string, string)>, wanted: seq<string>, all: bool, disk: Disk)
    requires forall row <- rows :: '\n' !in row.0 && '\n' !in row.1
    ensures Possible(AllTransmitted(rows, wanted, all, disk))
    ensures AllWhole(AllTransmitted(rows, wanted, all, disk)) <==> AllGetThrough(rows, wanted, all, disk)
  {
    if rows != [] {
      assert rows[0] in rows;
      var first, later := Transmitted(rows[0], wanted, all, disk), AllTransmitted(rows[1..], wanted, all, disk);
      OneTransmitted(rows[0], wanted, all, disk);
      Transmission(rows[1..], wanted, all, disk);
      assert AllWhole(first + later) <==> AllWhole(first) && AllWhole(later) by {
        assert forall t <- first :: t in first + later;
        assert forall t <- later :: t in first + later;
      }
      assert AllGetThrough(rows, wanted, all, disk) <==>
             AllGetThrough([rows[0]], wanted, all, disk) && AllGetThrough(rows[1..], wanted, all, disk) by {
        assert rows == [rows[0]] + rows[1..];
      }
    }
  }

  lemma {:induction false} RowsAreClean(text: string)
    ensures forall row <- Rows(text) :: '\n' !in row.0 && '\n' !in row.1
    decreases |text|
  {
    FindSpec(text, '\n');
    match Find(text, '\n') {
      case None =>
      case Some(i) =>
        RowsAreClean(text[i + 1..]);
        FindSpec(text[..i], '\t');
    }
  }

  /**
   What the module is asked for and what the script ends up with.  The script has the very files
   exactly when no package has a space and only the last file misses something, which the closing
   line supplies; so when every selected file gets through, exactly when no package has a space.
   */
  lemma ExportReachesTheScript(text: string, wanted: seq<string>, all: bool, disk: Disk)
    ensures var fs := AllSelected(Rows(text), wanted, all, disk);
            var got := PyDecode(TextPrinted(text, wanted, all, disk) + "DONE\n");
            && (got == (fs, Finished) <==> Passable(AllTransmitted(Rows(text), wanted, all, disk)))
            && (AllGetThrough(Rows(text), wanted, all, disk) ==>
                  got.1 == Finished && (got.0 == fs <==> forall f <- fs :: ' ' !in f.pkg))
  {
    var rows := Rows(text);
    var ts := AllTransmitted(rows, wanted, all, disk);
    RowsAreClean(text);
    PrintsTheWire(rows, wanted, all, disk);
    Transmission(rows, wanted, all, disk);
    ScriptRecoversIff(ts);
    if AllGetThrough(rows, wanted, all, disk) {
      WholeWire(ts);
      FilesAreOneLine(ts);
      PyReadsStream(Files(ts));
      PyRecoversIffNoSpace(Files(ts));
    }
  }

  lemma FilesAreOneLine(ts: seq<Transfer>)
    requires Possible(ts)
    ensures forall f <- Files(ts) :: OneLine(f)
  {
    FilesAre(ts);
    forall f <- Files(ts)
      ensures OneLine(f)
    {
      var i :| 0 <= i < |Files(ts)| && Files(ts)[i] == f;
      assert ts[i] in ts;
    }
  }

  /**
   A request for one package, and the agent's answer to what comes back: it has the very files
   exactly when every selected file gets through whole and the limits of the agent hold.
   */
  lemma ExportReachesTheAgent(text: string, package: string, disk: Disk)
    requires ValidPackage(package)
    ensures var fs := AllSelected(Rows(text), [package], false, disk);
            RustDecode(TextPrinted(text, [package], false, disk) + "DONE\n", package, 0) == (fs, None) <==>
              && AllGetThrough(Rows(text), [package], false, disk)
              && (forall f <- fs :: ValidFileName(f.name) && |f.content| <= MAX_APK_BYTES)
              && Total(fs) <= MAX_EXPORT_BYTES
  {
    var rows := Rows(text);
    RowsAreClean(text);
    PrintsTheWire(rows, [package], false, disk);
    Transmission(rows, [package], false, disk);
    SelectedAreWanted(rows, package, disk);
    AgentRecoversIff(AllTransmitted(rows, [package], false, disk), package);
  }

  lemma {:induction false} SelectedAreWanted(rows: seq<(string, string)>, package: string, disk: Disk)
    ensures forall f <- AllSelected(rows, [package], false, disk) :: f.pkg == package
  {
    if rows != [] {
      SelectedAreWanted(rows[1..], package, disk);
    }
  }

  lemma RowOf(pkg: string, path: string)
    requires '\t' !in pkg
    ensures Row(pkg + "\t" + path) == Some((pkg, path))
  {
    FindFirst(pkg, '\t', path);
    var line := pkg + "\t" + path;
    assert line == pkg + ['\t'] + path;
    assert line[..|pkg|] == pkg && line[|pkg| + 1..] == path;
  }

  lemma RowsOfLine(line: string, more: string)
    requires '\n' !in line && Row(line).Some?
    ensures Rows(line + "\n" + more) == [Row(line).value] + Rows(more)
  {
    var text := line + "\n" + more;
    FindFirst(line, '\n', more);
    assert line + ['\n'] + more == text;
    assert text[..|line|] == line && text[|line| + 1..] == more;
  }

  /** The table as the helper writes it. */
  function TableText(rows: seq<(string, string)>): string {
    if rows == [] then "" else rows[0].0 + "\t" + rows[0].1 + "\n" + TableText(rows[1..])
  }

  /** The printer finds the rows the helper wrote. */
  lemma {:induction false} TableReadBack(rows: seq<(string, string)>)
    requires forall row <- rows :: '\t' !in row.0 && '\n' !in row.0 && '\n' !in row.1
    ensures Rows(TableText(rows)) == rows
  {
    if rows != [] {
      var (pkg, path) := rows[0];
      assert rows[0] in rows;
      RowOf(pkg, path);
      RowsOfLine(pkg + "\t" + path, TableText(rows[1..]));
      TableReadBack(rows[1..]);
      assert [rows[0]] + rows[1..] == rows;
    }
  }

  /** A table the helper could not produce is told to both readers. */
  lemma HelperFailureIsTold(package: string)
    ensures PyDecode(HELPER_FAILED) == ([], ServerError("ERR helper failed"))
    ensures RustDecode(HELPER_FAILED, package, 0) == ([], Some(ModuleFailed("ERR helper failed")))
  {
    var line := "ERR helper failed";
    assert line + "\n" + "" == HELPER_FAILED;
    assert line[..3] == "ERR" && '\n' !in line;
    ErrorIsTold(line, "", package);
  }

  /** The row of a file in directory `dir`. */
  function RowText(f: Exported, dir: string): string {
    f.pkg + "\t" + (dir + "/" + f.name) + "\n"
  }

  lemma OneRow(f: Exported, dir: string, more: string)
    requires '\t' !in f.pkg && OneLine(f) && '\n' !in dir && '/' !in f.name
    ensures Rows(RowText(f, dir) + more) == [(f.pkg, dir + "/" + f.name)] + Rows(more)
    ensures BaseName(dir + "/" + f.name) == f.name
  {
    var path := dir + "/" + f.name;
    RowOf(f.pkg, path);
    RowsOfLine(f.pkg + "\t" + path, more);
    FindLastOne(dir, '/', f.name);
  }

  /** On the disk, `f` cannot be opened after it was found. */
  function Unopenable(f: Exported, dir: string): Disk {
    map[dir + "/" + f.name := OnDisk(f.content, 0)]
  }

  lemma PrintsOneHeader(f: Exported, dir: string)
    requires '\t' !in f.pkg && OneLine(f) && '\n' !in dir && '/' !in f.name && f.content != ""
    ensures TextPrinted(RowText(f, dir), [f.pkg], false, Unopenable(f, dir)) == HeaderLine(f) + "\n"
  {
    var disk, row := Unopenable(f, dir), (f.pkg, dir + "/" + f.name);
    OneRow(f, dir, "");
    assert RowText(f, dir) + "" == RowText(f, dir) && [row] + Rows("") == [row];
    assert Selected(row, [f.pkg], false, disk) == [f];
    assert Through(disk[row.1]) == "";
    assert AllPrinted([row], [f.pkg], false, disk) == Printed(row, [f.pkg], false, disk) + "";
  }

  /**
   A file that stops short is not noticed by the script: a five-byte file that cannot be opened
   swallows the `DONE` line, and the script reports one good file that holds that line.  Here the
   agent notices that the stream ended early.
   */
  lemma ShortFileGoesUnnoticed(f: Exported, dir: string)
    requires ValidPackage(f.pkg) && ValidFileName(f.name) && '\n' !in dir && |f.content| == 5
    ensures var out := TextPrinted(RowText(f, dir), [f.pkg], false, Unopenable(f, dir)) + "DONE\n";
            && PyDecode(out) == ([f.(content := "DONE\n")], Finished)
            && RustDecode(out, f.pkg, 0).1 == Some(Truncated)
  {
    PrintsOneHeader(f, dir);
    var taken := f.(content := "DONE\n");
    SwallowedLine(taken, f.pkg);
    assert HeaderLine(taken) == HeaderLine(f);
    assert HeaderLine(f) + "\n" + "DONE\n" == HeaderLine(taken) + "\n" + taken.content + "";
  }

  /** Two files of one package; `f` cannot be opened. */
  function TwoFiles(f: Exported, g: Exported, dir: string): Disk {
    Unopenable(f, dir)[dir + "/" + g.name := OnDisk(g.content, |g.content|)]
  }

  lemma TwoRows(f: Exported, g: Exported, dir: string)
    requires '\t' !in f.pkg && '\t' !in g.pkg && OneLine(f) && OneLine(g) && '\n' !in dir
    requires '/' !in f.name && '/' !in g.name
    ensures Rows(RowText(f, dir) + RowText(g, dir))
         == [(f.pkg, dir + "/" + f.name)] + ([(g.pkg, dir + "/" + g.name)] + [])
    ensures BaseName(dir + "/" + f.name) == f.name && BaseName(dir + "/" + g.name) == g.name
  {
    OneRow(f, dir, RowText(g, dir));
    OneRow(g, dir, "");
    assert RowText(g, dir) + "" == RowText(g, dir);
  }

  lemma TwoOnTheWire(f: Exported, g: Exported, dir: string)
    requires ValidPackage(f.pkg) && Accepted(f, f.pkg) && Accepted(g, f.pkg) && f.name != g.name
    requires '\n' !in dir && f.content != "" && g.content != ""
    ensures var text := RowText(f, dir) + RowText(g, dir);
            && AllSelected(Rows(text), [f.pkg], false, TwoFiles(f, g, dir)) == [f, g]
            && TextPrinted(text, [f.pkg], false, TwoFiles(f, g, dir)) + "DONE\n"
               == Wire([Transfer(f, ""), Transfer(g, g.content)])
  {
    var row1, row2 := (f.pkg, dir + "/" + f.name), (g.pkg, dir + "/" + g.name);
    HeaderFits(f, f.pkg);
    HeaderFits(g, f.pkg);
    TwoRows(f, g, dir);
    DifferentPaths(dir, f.name, g.name);
    TwoTransmitted(row1, row2, f, g, TwoFiles(f, g, dir));
    PrintsTheWire([row1] + ([row2] + []), [f.pkg], false, TwoFiles(f, g, dir));
    assert [Transfer(f, "")] + ([Transfer(g, g.content)] + []) == [Transfer(f, ""), Transfer(g, g.content)];
    assert [f] + ([g] + []) == [f, g];
  }

  /**
   The agent does not always notice either: when the file that cannot be opened is exactly as long
   as the next file with its header, both readers accept one file that holds the other.
   */
  lemma LostFileGoesUnnoticedByBoth(f: Exported, g: Exported, dir: string)
    requires ValidPackage(f.pkg) && Accepted(f, f.pkg) && Accepted(g, f.pkg) && f.name != g.name && g.content != ""
    requires '\n' !in dir && |f.content| == |HeaderLine(g)| + 1 + |g.content|
    ensures var text, taken := RowText(f, dir) + RowText(g, dir), [f.(content := HeaderLine(g) + "\n" + g.content)];
            var out := TextPrinted(text, [f.pkg], false, TwoFiles(f, g, dir)) + "DONE\n";
            && AllSelected(Rows(text), [f.pkg], false, TwoFiles(f, g, dir)) == [f, g]
            && RustDecode(out, f.pkg, 0) == (taken, None) && PyDecode(out) == (taken, Finished)
  {
    TwoOnTheWire(f, g, dir);
    LostFileGoesUnnoticed(f, g, f.pkg);
  }

  lemma DifferentPaths(dir: string, a: string, b: string)
    requires a != b
    ensures dir + "/" + a != dir + "/" + b
  {
    NameOf(dir, a);
    NameOf(dir, b);
  }

  lemma NameOf(dir: string, name: string)
    ensures (dir + "/" + name)[|dir| + 1..] == name
  {
  }

  lemma RowTransmitted(row: (string, string), f: Exported, disk: Disk)
    requires row.0 == f.pkg && row.1 in disk && BaseName(row.1) == f.name && disk[row.1].content == f.content != ""
    ensures Selected(row, [f.pkg], false, disk) == [f]
    ensures Transmitted(row, [f.pkg], false, disk) == [Transfer(f, Through(disk[row.1]))]
  {
    assert row.0 in [f.pkg];
  }

  lemma FirstTransmitted(row: (string, string), rest: seq<(string, string)>, wanted: seq<string>, all: bool, disk: Disk)
    ensures AllTransmitted([row] + rest, wanted, all, disk)
         == Transmitted(row, wanted, all, disk) + AllTransmitted(rest, wanted, all, disk)
    ensures AllSelected([row] + rest, wanted, all, disk)
         == Selected(row, wanted, all, disk) + AllSelected(rest, wanted, all, disk)
  {
    assert ([row] + rest)[1..] == rest;
  }

  lemma TwoTransmitted(row1: (string, string), row2: (string, string), f: Exported, g: Exported, disk: Disk)
    requires row1.1 in disk && row2.1 in disk && f.pkg == g.pkg && f.content != "" && g.content != ""
    requires row1.0 == f.pkg && BaseName(row1.1) == f.name && disk[row1.1] == OnDisk(f.content, 0)
    requires row2.0 == g.pkg && BaseName(row2.1) == g.name && disk[row2.1] == OnDisk(g.content, |g.content|)
    ensures AllTransmitted([row1] + ([row2] + []), [f.pkg], false, disk)
         == [Transfer(f, "")] + ([Transfer(g, g.content)] + [])
    ensures AllSelected([row1] + ([row2] + []), [f.pkg], false, disk) == [f] + ([g] + [])
  {
    RowTransmitted(row1, f, disk);
    RowTransmitted(row2, g, disk);
    FirstTransmitted(row1, [row2] + [], [f.pkg], false, disk);
    FirstTransmitted(row2, [], [f.pkg], false, disk);
  }

  lemma SwallowedLine(f: Exported, package: string)
    requires ValidPackage(package) && f.pkg == package && ValidFileName(f.name) && |f.content| == 5
    ensures PyDecode(HeaderLine(f) + "\n" + f.content + "") == ([f], Finished)
    ensures RustDecode(HeaderLine(f) + "\n" + f.content + "", package, 0) == ([f], Some(Truncated))
  {
    var s := HeaderLine(f) + "\n" + f.content + "";
    HeaderFits(f, package);
    ShownIffNoSpace(f);
    LineOfHeader(f, "");
    PyReadsHeader(f);
    PyTakes(s, |HeaderLine(f)|, f, "");
    LineOfFile(f, "", package);
    RustReadsHeader(f, package, 0);
    RustTakesContent(s, HeaderLine(f), f, "", 0);
    assert [f] + [] == [f];
  }

  // ---- the printer ----

  predicate CString(a: array<char>, from: nat, end: nat)
    reads a
  {
    from <= end < a.Length && a[end] == '\0' && forall i | from <= i < end :: a[i] != '\0'
  }

  lemma Cut(s: string, from: nat, at: nat, end: nat)
    requires from <= at < end <= |s|
    ensures s[from..end] == s[from..at] + [s[at]] + s[at + 1..end]
    ensures s[from..end][..at - from] == s[from..at] && s[from..end][at - from + 1..] == s[at + 1..end]
  {
  }

  /** `strchr` on the C string that starts at `from`. */
  method StrChr(a: array<char>, from: nat, c: char, ghost end: nat) returns (at: Option<nat>)
    requires CString(a, from, end) && c != '\0'
    ensures match Find(a[from..end], c)
            case None => at == None
            case Some(i) => at == Some(from + i)
    ensures at.Some? ==> from <= at.value < end && a[at.value] == c
  {
    var i := from;
    while a[i] != '\0' && a[i] != c
      invariant from <= i <= end
      invariant c !in a[from..i]
      decreases end - i
    {
      i := i + 1;
    }
    FindSpec(a[from..end], c);
    if a[i] == c {
      FindFirst(a[from..i], c, a[i + 1..end]);
      Cut(a[..], from, i, end);
      return Some(i);
    }
    return None;
  }

  method Matches(pkg: string, wanted: seq<string>, all: bool) returns (r: bool)
    ensures r <==> all || pkg in wanted
  {
    r := all;
    var k := 0;
    while !r && k < |wanted|
      invariant k <= |wanted|
      invariant r == (all || pkg in wanted[..k])
    {
      r := pkg == wanted[k];
      k := k + 1;
    }
  }

  function LinePrinted(line: string, wanted: seq<string>, all: bool, disk: Disk): string {
    match Row(line)
    case None => ""
    case Some(row) => Printed(row, wanted, all, disk)
  }

  lemma PrintedFirst(row: (string, string), rest: seq<(string, string)>, wanted: seq<string>, all: bool, disk: Disk)
    ensures AllPrinted([row] + rest, wanted, all, disk)
         == Printed(row, wanted, all, disk) + AllPrinted(rest, wanted, all, disk)
  {
    assert ([row] + rest)[1..] == rest;
  }

  lemma RowsFirst(text: string, i: nat)
    requires Find(text, '\n') == Some(i) && i < |text|
    ensures Rows(text) == match Row(text[..i])
                          case None => Rows(text[i + 1..])
                          case Some(row) => [row] + Rows(text[i + 1..])
  {
  }

  lemma PrintedLineByLine(text: string, i: nat, wanted: seq<string>, all: bool, disk: Disk)
    requires Find(text, '\n') == Some(i) && i < |text|
    ensures TextPrinted(text, wanted, all, disk)
         == LinePrinted(text[..i], wanted, all, disk) + TextPrinted(text[i + 1..], wanted, all, disk)
  {
    RowsFirst(text, i);
    var rest := Rows(text[i + 1..]);
    var row := Row(text[..i]);
    if row == None {
      assert LinePrinted(text[..i], wanted, all, disk) == "";
    } else {
      PrintedFirst(row.value, rest, wanted, all, disk);
    }
  }

  lemma NoLineLeft(text: string, wanted: seq<string>, all: bool, disk: Disk)
    requires Find(text, '\n') == None
    ensures TextPrinted(text, wanted, all, disk) == ""
  {
  }

  lemma OneLineFurther(out: string, text: string, i: nat, total: string, wanted: seq<string>, all: bool, disk: Disk)
    requires Find(text, '\n') == Some(i) && i < |text| && out + TextPrinted(text, wanted, all, disk) == total
    ensures out + LinePrinted(text[..i], wanted, all, disk) + TextPrinted(text[i + 1..], wanted, all, disk) == total
  {
    PrintedLineByLine(text, i, wanted, all, disk);
    Bracket(out, LinePrinted(text[..i], wanted, all, disk), TextPrinted(text[i + 1..], wanted, all, disk));
  }

  lemma Bracket(a: string, b: string, c: string)
    ensures a + b + c == a + (b + c)
  {
  }

  /** The line at `line`, cut off at `nl` and then at its tab. */
  method CutRow(tab: array<char>, line: nat, nl: nat, ghost end: nat, ghost row: string, ghost rest: string)
      returns (r: Option<(string, string)>)
    requires CString(tab, line, nl) && tab[line..nl] == row
    requires CString(tab, nl + 1, end) && tab[nl + 1..end] == rest
    modifies tab
    ensures r == Row(row)
    ensures CString(tab, nl + 1, end) && tab[nl + 1..end] == rest
  {
    var tabpos := StrChr(tab, line, '\t', nl);
    if tabpos == None {
      return None;
    }
    var t := tabpos.value;
    Cut(tab[..], line, t, nl);
    tab[t] := '\0';
    return Some((tab[line..t], tab[t + 1..nl]));
  }

  /** What one row sends: the header and what gets through of the file, or nothing. */
  method PrintRow(tab: array<char>, line: nat, nl: nat, wanted: seq<string>, all: bool, disk: Disk,
                  ghost end: nat, ghost row: string, ghost rest: string)
      returns (out: string)
    requires CString(tab, line, nl) && tab[line..nl] == row
    requires CString(tab, nl + 1, end) && tab[nl + 1..end] == rest
    modifies tab
    ensures out == LinePrinted(row, wanted, all, disk)
    ensures CString(tab, nl + 1, end) && tab[nl + 1..end] == rest
  {
    var cut := CutRow(tab, line, nl, end, row, rest);
    if cut == None {
      return "";
    }
    out := PrintFile(cut.value.0, cut.value.1, wanted, all, disk);
  }

  method PrintFile(pkg: string, path: string, wanted: seq<string>, all: bool, disk: Disk) returns (out: string)
    ensures out == Printed((pkg, path), wanted, all, disk)
  {
    var wantedRow := Matches(pkg, wanted, all);
    if !wantedRow || path !in disk || disk[path].content == "" {
      return "";
    }
    var f := Exported(pkg, BaseName(path), disk[path].content);
    out := HeaderLine(f) + "\n" + Through(disk[path]);
  }

  /** The line that starts at `line`, ended in place; None when no line end is left. */
  method CutLine(tab: array<char>, line: nat, ghost end: nat, ghost text: string) returns (nl: Option<nat>)
    requires CString(tab, line, end) && tab[line..end] == text
    modifies tab
    ensures nl.None? ==> Find(text, '\n') == None
    ensures nl.Some? ==>
              && line <= nl.value < end && Find(text, '\n') == Some(nl.value - line)
              && CString(tab, line, nl.value) && tab[line..nl.value] == text[..nl.value - line]
              && CString(tab, nl.value + 1, end) && tab[nl.value + 1..end] == text[nl.value - line + 1..]
  {
    nl := StrChr(tab, line, '\n', end);
    if nl.Some? {
      tab[nl.value] := '\0';
    }
  }

  /** One turn of the loop over the table. */
  method PrintLine(tab: array<char>, line: nat, wanted: seq<string>, all: bool, disk: Disk,
                   ghost end: nat, ghost text: string)
      returns (out: string, next: Option<nat>)
    requires CString(tab, line, end) && tab[line..end] == text
    modifies tab
    ensures next.None? ==> out == "" && Find(text, '\n') == None
    ensures next.Some? ==>
              && line < next.value <= end && Find(text, '\n') == Some(next.value - 1 - line)
              && out == LinePrinted(text[..next.value - 1 - line], wanted, all, disk)
              && CString(tab, next.value, end) && tab[next.value..end] == text[next.value - line..]
  {
    var nl := CutLine(tab, line, end, text);
    if nl == None {
      return "", None;
    }
    ghost var k := nl.value - line;
    out := PrintRow(tab, line, nl.value, wanted, all, disk, end, text[..k], text[k + 1..]);
    next := Some(nl.value + 1);
  }

  method ExportFiles(tab: array?<char>, ghost end: nat, wanted: seq<string>, all: bool, disk: Disk)
      returns (out: string)
    requires tab != null ==> CString(tab, 0, end)
    modifies tab
    ensures tab == null ==> out == HELPER_FAILED
    ensures tab != null ==> out == TextPrinted(old(tab[..end]), wanted, all, disk) + "DONE\n"
  {
    if tab == null {
      return HELPER_FAILED;
    }
    ghost var total := TextPrinted(tab[..end], wanted, all, disk);
    assert tab[0..end] == tab[..end];
    var line := 0;
    out := "";
    while tab[line] != '\0'
      invariant line <= end && CString(tab, line, end)
      invariant out + TextPrinted(tab[line..end], wanted, all, disk) == total
      decreases end - line
    {
      ghost var text := tab[line..end];
      var printed, next := PrintLine(tab, line, wanted, all, disk, end, text);
      if next == None {
        NoLineLeft(text, wanted, all, disk);
        return out + "DONE\n";
      }
      OneLineFurther(out, text, next.value - 1 - line, total, wanted, all, disk);
      out := out + printed;
      line := next.value;
    }
    NoLineLeft(tab[line..end], wanted, all, disk);
    out := out + "DONE\n";
  }
}
