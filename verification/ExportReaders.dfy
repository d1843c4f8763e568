/**
 The two readers of an export stream, over a socket that hands out the stream in chunks of
 its own choosing: the script, which buffers, and the agent, which reads lines byte by byte.
 */
module ExportReaders {
  import opened ExportStream
  import opened ProcText
  import opened Wrappers

  /** A connection: `unread` is everything the peer has yet to deliver before it closes. */
  class Socket {
    var unread: string

    constructor (unread: string)
      ensures this.unread == unread
    {
      this.unread := unread;
    }

    /** Some of what is left, at most `max`; nothing only at the end. */
    method Recv(max: nat) returns (c: string)
      requires max > 0
      modifies this
      ensures |c| <= max && c + unread == old(unread) && (c == "" <==> old(unread) == "")
    {
      ghost var least: nat := if unread == "" then 0 else 1;
      assert least <= max && least <= |unread| && (least == 0 <==> unread == "");
      var n: nat :| n <= max && n <= |unread| && (n == 0 <==> unread == "");
      c := unread[..n];
      unread := unread[n..];
    }
  }

  // ---- the script ----

  /** The first line of `all` and what follows it. */
  predicate IsLine(all: string, line: Option<string>, rest: string) {
    match Find(all, '\n')
    case None => line == None
    case Some(i) => i < |all| && line == Some(all[..i]) && rest == all[i + 1..]
  }

  lemma LineBuffered(buf: string, more: string)
    requires '\n' in buf
    ensures Find(buf, '\n').Some? && Find(buf, '\n').value < |buf|
    ensures var i := Find(buf, '\n').value;
            IsLine(buf + more, Some(buf[..i]), buf[i + 1..] + more)
  {
    FindSpec(buf, '\n');
    FindStays(buf, more, '\n');
    SlicesOf(buf, more, Find(buf, '\n').value);
  }

  lemma SlicesOf(buf: string, more: string, i: nat)
    requires i < |buf|
    ensures (buf + more)[..i] == buf[..i] && (buf + more)[i + 1..] == buf[i + 1..] + more
  {
  }

  lemma {:induction false} FindStays(buf: string, more: string, c: char)
    requires Find(buf, c).Some?
    ensures Find(buf + more, c) == Find(buf, c)
  {
    if buf[0] != c {
      assert (buf + more)[1..] == buf[1..] + more;
      FindStays(buf[1..], more, c);
    }
  }

  method ReadLine(sock: Socket, buffered: string) returns (line: Option<string>, buf: string)
    modifies sock
    ensures IsLine(buffered + old(sock.unread), line, buf + sock.unread)
  {
    ghost var all := buffered + sock.unread;
    buf := buffered;
    while '\n' !in buf
      invariant buf + sock.unread == all
      decreases |sock.unread|
    {
      var c := sock.Recv(4096);
      if c == "" {
        assert all == buf;
        FindSpec(all, '\n');
        return None, buf;
      }
      assert buf + c + sock.unread == buf + (c + sock.unread);
      buf := buf + c;
    }
    LineBuffered(buf, sock.unread);
    var i := Find(buf, '\n').value;
    return Some(buf[..i]), buf[i + 1..];
  }

  method ReadExact(sock: Socket, n: nat, buffered: string) returns (data: string, buf: string)
    modifies sock
    ensures var all := buffered + old(sock.unread);
            if n <= |all| then data == all[..n] && buf + sock.unread == all[n..]
            else data == all && buf == "" && sock.unread == ""
  {
    ghost var all := buffered + sock.unread;
    buf := buffered;
    while |buf| < n
      invariant buf + sock.unread == all
      decreases |sock.unread|
    {
      var c := sock.Recv(if n - |buf| < 65536 then n - |buf| else 65536);
      if c == "" {
        assert all == buf;
        break;
      }
      assert buf + c + sock.unread == buf + (c + sock.unread);
      buf := buf + c;
    }
    if n <= |buf| {
      assert all[..n] == buf[..n] && all[n..] == buf[n..] + sock.unread;
      return buf[..n], buf[n..];
    }
    return buf, "";
  }

  /** `files` are what was read on the way from `start` to `left`. */
  ghost predicate Reading(start: string, files: seq<Exported>, left: string) {
    PyDecode(start) == (files + PyDecode(left).0, PyDecode(left).1)
  }

  lemma ReadingEnds(start: string, files: seq<Exported>, left: string)
    requires Reading(start, files, left) && PyDecode(left).0 == []
    ensures PyDecode(start) == (files, PyDecode(left).1)
  {
    assert files + [] == files;
  }

  lemma ReadingGoesOn(start: string, files: seq<Exported>, left: string, f: Exported, rest: string)
    requires Reading(start, files, left) && PyDecode(left) == Before(f, PyDecode(rest))
    ensures Reading(start, files + [f], rest) && Total(files + [f]) == Total(files) + |f.content|
  {
    assert files + ([f] + PyDecode(rest).0) == (files + [f]) + PyDecode(rest).0;
    assert (files + [f])[..|files|] == files;
  }

  /** The loop of the export command: files are written as they arrive. */
  method CmdExport(sock: Socket) returns (files: seq<Exported>, total: nat, end: PyEnd)
    modifies sock
    ensures (files, end) == PyDecode(old(sock.unread))
    ensures total == Total(files)
  {
    ghost var start := sock.unread;
    var buf := "";
    files, total := [], 0;
    assert buf + sock.unread == start && [] + PyDecode(start).0 == PyDecode(start).0;
    while true
      invariant Reading(start, files, buf + sock.unread) && total == Total(files)
      decreases |buf + sock.unread|
    {
      ghost var left := buf + sock.unread;
      var line;
      line, buf := ReadLine(sock, buf);
      if line == None {
        ReadingEnds(start, files, left);
        return files, total, Finished;
      }
      assert PyDecode(left) == PyAfter(PyRead(line.value), buf + sock.unread);
      match PyRead(line.value) {
        case Stop(e) =>
          ReadingEnds(start, files, left);
          return files, total, e;
        case Skip =>
        case File(size, pkg, name) =>
          var data;
          data, buf := ReadExact(sock, size, buf);
          if |data| != size {
            ReadingEnds(start, files, left);
            return files, total, Short(pkg, name, |data|);
          }
          ReadingGoesOn(start, files, left, Exported(pkg, name, data), buf + sock.unread);
          files := files + [Exported(pkg, name, data)];
          total := total + size;
      }
    }
  }

  /** However the stream is chopped up, the script ends with the files that were printed. */
  method ExportAndRead(fs: seq<Exported>) returns (files: seq<Exported>, total: nat)
    requires forall f <- fs :: OneLine(f) && ' ' !in f.pkg
    ensures files == fs && total == Total(fs)
  {
    PyRecoversIffNoSpace(fs);
    var sock := new Socket(Stream(fs));
    var end;
    files, total, end := CmdExport(sock);
  }

  // ---- the agent ----

  lemma LineEnds(line: string, rest: string)
    requires '\n' !in line && |line| <= MAX_LINE_BYTES
    ensures ExportStream.NextLine(line + "\n" + rest) == Ok(Some((line, rest)))
  {
    var all := line + "\n" + rest;
    FindFirst(line, '\n', rest);
    assert all[..|line|] == line && all[|line| + 1..] == rest;
  }

  lemma LastLine(line: string)
    requires '\n' !in line && |line| <= MAX_LINE_BYTES
    ensures ExportStream.NextLine(line) == Ok(if line == "" then None else Some((line, "")))
  {
    FindSpec(line, '\n');
    assert line[..|line|] == line;
  }

  lemma LongPrefix(all: string, line: string)
    requires |line| > MAX_LINE_BYTES && line <= all && '\n' !in line
    ensures ExportStream.NextLine(all) == Err(LineTooLong)
  {
    FindSpec(all, '\n');
    match Find(all, '\n') {
      case None =>
      case Some(i) =>
        assert i >= |line| by {
          assert all[..|line|] == line;
        }
    }
  }

  /** What the staging directory holds after files were written one after the other. */
  function Written(disk: map<string, string>, files: seq<Exported>): map<string, string> {
    if files == [] then disk
    else
      var last := files[|files| - 1];
      Written(disk, files[..|files| - 1])[last.name := last.content]
  }

  /** How the agent reports a staged file; its content is in the staging directory. */
  datatype StagedFile = StagedFile(name: string, size: nat)

  function Listing(files: seq<Exported>): seq<StagedFile> {
    if files == [] then []
    else
      var last := files[|files| - 1];
      Listing(files[..|files| - 1]) + [StagedFile(last.name, |last.content|)]
  }

  class Staging {
    const socket: Socket
    var disk: map<string, string>

    constructor (socket: Socket)
      ensures this.socket == socket && disk == map[]
    {
      this.socket := socket;
      disk := map[];
    }

    method NextLine() returns (r: Result<Option<string>, ExportError>)
      modifies socket
      ensures match ExportStream.NextLine(old(socket.unread))
              case Err(e) => r == Err(e)
              case Ok(None) => r == Ok(None)
              case Ok(Some((line, rest))) => r == Ok(Some(line)) && socket.unread == rest
    {
      ghost var all := socket.unread;
      var line := "";
      while true
        invariant line + socket.unread == all && '\n' !in line && |line| <= MAX_LINE_BYTES + 1
        decreases |socket.unread|
      {
        if |line| > MAX_LINE_BYTES {
          LongPrefix(all, line);
          return Err(LineTooLong);
        }
        var c := socket.Recv(1);
        if c == "" {
          LastLine(line);
          assert all == line;
          return Ok(if line == "" then None else Some(line));
        }
        if c[0] == '\n' {
          assert all == line + "\n" + socket.unread;
          LineEnds(line, socket.unread);
          return Ok(Some(line));
        }
        assert line + c + socket.unread == line + (c + socket.unread);
        line := line + c;
      }
    }

    /** Copies `size` bytes into the file; false, with what there was in it, when the stream ends first. */
    method ReadExactInto(name: string, size: nat) returns (ok: bool)
      requires name in disk
      modifies this`disk, socket
      ensures var all := old(socket.unread);
              ok == (size <= |all|)
              && (ok ==> disk == old(disk)[name := old(disk)[name] + all[..size]] && socket.unread == all[size..])
      ensures disk.Keys == old(disk.Keys) && disk - {name} == old(disk) - {name}
    {
      ghost var all, start := socket.unread, disk[name];
      var remaining := size;
      assert start + all[..0] == start;
      while remaining > 0
        invariant 0 <= remaining <= size <= |all| + remaining
        invariant size - remaining <= |all| && socket.unread == all[size - remaining..]
        invariant name in disk && disk == old(disk)[name := start + all[..size - remaining]]
      {
        var chunk := socket.Recv(if remaining < 65536 then remaining else 65536);
        if chunk == "" {
          return false;
        }
        assert all[..size - remaining] + chunk == all[..size - remaining + |chunk|];
        assert start + all[..size - remaining] + chunk == start + (all[..size - remaining] + chunk);
        disk := disk[name := disk[name] + chunk];
        remaining := remaining - |chunk|;
      }
      return true;
    }

    /** One file, made anew; it is removed again when it stays short. */
    method StageFile(name: string, size: nat) returns (ok: bool)
      modifies this`disk, socket
      ensures var all := old(socket.unread);
              ok == (size <= |all|)
              && (ok ==> disk == old(disk)[name := all[..size]] && socket.unread == all[size..])
      ensures !ok ==> disk == old(disk) - {name}
    {
      ghost var was := disk;
      disk := disk[name := ""];
      ok := ReadExactInto(name, size);
      if !ok {
        disk := disk - {name};
        assert disk == was[name := ""] - {name} == was - {name};
      } else {
        assert disk[name] == "" + old(socket.unread)[..size] == old(socket.unread)[..size];
      }
    }

    /** What the next line asks for; the end of the stream is a failure. */
    method NextStep(package: string, total: nat) returns (step: RustLine)
      modifies socket
      ensures RustDecode(old(socket.unread), package, total) == RustAfter(step, socket.unread, package, total)
      ensures step.Blank? || step.Take? ==> |socket.unread| < |old(socket.unread)|
    {
      var line := NextLine();
      if line.Err? {
        return Fail(line.error);
      }
      if line.value == None {
        return Fail(Truncated);
      }
      return RustRead(line.value.value, package, total);
    }

    /** The export loop; a file that stays short is removed again. */
    method StageExport(package: string)
        returns (staged: seq<StagedFile>, total: nat, failure: Option<ExportError>)
      modifies this`disk, socket
      ensures ExportDone(old(socket.unread), package, old(disk), disk, staged, total, failure)
    {
      ghost var start, was := socket.unread, disk;
      ghost var files: seq<Exported> := [];
      assert [] + RustDecode(start, package, 0).0 == RustDecode(start, package, 0).0;
      staged, total := [], 0;
      while true
        invariant Progress(start, files, socket.unread, package, total)
        invariant staged == Listing(files)
        invariant disk == Written(was, files)
        decreases |socket.unread|
      {
        ghost var left := socket.unread;
        var step := NextStep(package, total);
        match step {
          case Done =>
            Ends(start, files, left, package, total, was, disk, None);
            return staged, total, None;
          case Blank =>
          case Fail(e) =>
            Ends(start, files, left, package, total, was, disk, Some(e));
            return staged, total, Some(e);
          case Take(size, name) =>
            ghost var rest := socket.unread;
            var copied := StageFile(name, size);
            if !copied {
              Ends(start, files, left, package, total, was, disk, Some(Truncated));
              return staged, total, Some(Truncated);
            }
            Advances(start, files, left, package, total, rest, size, name);
            Lists(was, files, Exported(package, name, rest[..size]));
            files := files + [Exported(package, name, rest[..size])];
            staged := staged + [StagedFile(name, size)];
            total := total + size;
        }
      }
    }
  }

  /** What an export leaves: list, total, error and directory are those of the decoding of the whole stream. */
  ghost predicate ExportDone(start: string, package: string, was: map<string, string>, disk: map<string, string>,
                             staged: seq<StagedFile>, total: nat, failure: Option<ExportError>) {
    var (files, end) := RustDecode(start, package, 0);
    && staged == Listing(files) && total == Total(files) && failure == end
    && (end == None ==> disk == Written(was, files))
    && Within(disk, Written(was, files))
  }

  predicate Within(disk: map<string, string>, full: map<string, string>) {
    forall name <- disk :: name in full && disk[name] == full[name]
  }

  /** `files` are what was taken on the way from `start` to `left`. */
  ghost predicate Progress(start: string, files: seq<Exported>, left: string, package: string, total: nat) {
    && total == Total(files)
    && RustDecode(start, package, 0)
       == (files + RustDecode(left, package, total).0, RustDecode(left, package, total).1)
  }

  lemma Ends(start: string, files: seq<Exported>, left: string, package: string, total: nat, was: map<string, string>,
             disk: map<string, string>, failure: Option<ExportError>)
    requires Progress(start, files, left, package, total) && RustDecode(left, package, total) == ([], failure)
    requires failure == None ==> disk == Written(was, files)
    requires Within(disk, Written(was, files))
    ensures ExportDone(start, package, was, disk, Listing(files), total, failure)
  {
    assert files + [] == files;
  }

  lemma Shift<T>(a: seq<T>, x: T, b: seq<T>)
    ensures a + ([x] + b) == (a + [x]) + b
  {
  }

  lemma TotalLast(files: seq<Exported>, f: Exported)
    ensures Total(files + [f]) == Total(files) + |f.content|
  {
    assert (files + [f])[..|files|] == files;
  }

  lemma AfterTake(rest: string, size: nat, name: string, package: string, total: nat)
    requires size <= |rest|
    ensures var later := RustDecode(rest[size..], package, total + size);
            RustAfter(Take(size, name), rest, package, total)
            == ([Exported(package, name, rest[..size])] + later.0, later.1)
  {
  }

  lemma Advances(start: string, files: seq<Exported>, left: string, package: string, total: nat, rest: string,
                 size: nat, name: string)
    requires Progress(start, files, left, package, total) && size <= |rest|
    requires RustDecode(left, package, total) == RustAfter(Take(size, name), rest, package, total)
    ensures Progress(start, files + [Exported(package, name, rest[..size])], rest[size..], package, total + size)
  {
    var f := Exported(package, name, rest[..size]);
    AfterTake(rest, size, name, package, total);
    Shift(files, f, RustDecode(rest[size..], package, total + size).0);
    TotalLast(files, f);
  }

  lemma Lists(disk: map<string, string>, files: seq<Exported>, f: Exported)
    ensures Listing(files + [f]) == Listing(files) + [StagedFile(f.name, |f.content|)]
    ensures Written(disk, files + [f]) == Written(disk, files)[f.name := f.content]
  {
    assert (files + [f])[..|files|] == files;
  }
}
