/**
 Two independent readers of the kernel's socket tables: one takes a row apart,
 the other looks for a listening port in the text.
 */
module ProcNet {
  import opened Bytes
  import opened ProcText
  import opened Text
  import opened Wrappers

  const U8_MAX: nat := 0xff
  const U16_MAX: nat := 0xffff
  const U32_MAX: nat := 0xffff_ffff
  const U64_MAX: nat := 0xffff_ffff_ffff_ffff

  const LISTEN: nat := 0x0A

  datatype Family = Ipv4 | Ipv6

  /** An end of a socket: 4 or 16 address bytes in network order, and a port. */
  datatype Endpoint = Endpoint(address: Bytes, port: nat)

  /** One socket, with the columns nobody reads as they are. */
  datatype Row = Row(slot: string, local: Endpoint, remote: Endpoint, state: nat, queues: string, timer: string,
                     retransmit: string, uid: nat, timeout: string, inode: nat, more: seq<string>)

  datatype NetEntry = NetEntry(inode: nat, local: Endpoint, remotePort: nat, state: nat, uid: nat)

  // ---- the kernel's layout ----

  function AddressSize(family: Family): nat {
    match family case Ipv4 => 4 case Ipv6 => 16
  }

  /** Four address bytes as the kernel's little-endian machine word. */
  function Word(b: Bytes): nat
    requires |b| == 4
  {
    b[0] as nat + 0x100 * b[1] as nat + 0x1_0000 * b[2] as nat + 0x100_0000 * b[3] as nat
  }

  function WordText(b: Bytes): string
    requires |b| == 4
  {
    Hex(Word(b), 8)
  }

  function AddressText(b: Bytes): string {
    if |b| < 4 then "" else WordText(b[..4]) + AddressText(b[4..])
  }

  function EndpointText(e: Endpoint): string {
    AddressText(e.address) + ":" + Hex(e.port, 4)
  }

  predicate RowOk(r: Row, family: Family) {
    && |r.local.address| == AddressSize(family) && |r.remote.address| == AddressSize(family)
    && r.local.port <= U16_MAX && r.remote.port <= U16_MAX
    && r.state <= U8_MAX && r.uid <= U32_MAX && r.inode <= U64_MAX
    && Solid(r.slot) && Solid(r.queues) && Solid(r.timer) && Solid(r.retransmit) && Solid(r.timeout)
    && forall c <- r.more :: Solid(c)
  }

  function RowColumns(r: Row): seq<string> {
    [r.slot, EndpointText(r.local), EndpointText(r.remote), Hex(r.state, 2), r.queues, r.timer, r.retransmit,
     Dec(r.uid), r.timeout, Dec(r.inode)] + r.more
  }

  predicate Spaces(s: string) {
    forall c <- s :: c == ' '
  }

  /** One printed row, with any amount of padding between the columns. */
  predicate Prints(line: string, r: Row, family: Family, pads: seq<string>) {
    && RowOk(r, family) && |pads| == |RowColumns(r)| + 1
    && (forall p <- pads :: Spaces(p)) && (forall i | 0 < i < |RowColumns(r)| :: pads[i] != "")
    && line == Layout(RowColumns(r), pads)
  }

  // ---- taking a row apart ----

  /** The four bytes of a word, lowest first. */
  function LittleEndianBytes(n: nat): (b: Bytes)
    requires n <= U32_MAX
    ensures |b| == 4
  {
    [(n % 0x100) as byte, (n / 0x100 % 0x100) as byte, (n / 0x1_0000 % 0x100) as byte, (n / 0x100_0000) as byte]
  }

  function BigEndianBytes(n: nat): (b: Bytes)
    requires n <= U32_MAX
    ensures |b| == 4
  {
    [(n / 0x100_0000) as byte, (n / 0x1_0000 % 0x100) as byte, (n / 0x100 % 0x100) as byte, (n % 0x100) as byte]
  }

  function ParseIpv4(raw: string): Option<Bytes> {
    match ParseUnsigned(raw, 16, U32_MAX)
    case None => None
    case Some(n) => var b := BigEndianBytes(n); Some([b[3], b[2], b[1], b[0]])
  }

  /** Groups of eight hex digits, each one word. */
  function Groups(raw: string, n: nat): Option<Bytes>
    requires |raw| == 8 * n
  {
    if n == 0 then Some([])
    else match ParseUnsigned(raw[..8], 16, U32_MAX)
      case None => None
      case Some(v) => Prefixed(LittleEndianBytes(v), Groups(raw[8..], n - 1))
  }

  function Prefixed(done: Bytes, rest: Option<Bytes>): Option<Bytes> {
    match rest
    case None => None
    case Some(b) => Some(done + b)
  }

  lemma PrefixedTwice(a: Bytes, b: Bytes, rest: Option<Bytes>)
    ensures Prefixed(a, Prefixed(b, rest)) == Prefixed(a + b, rest)
  {
    if rest.Some? {
      assert a + (b + rest.value) == a + b + rest.value;
    }
  }

  /** `done` are the bytes of the groups in front of `left`. */
  ghost predicate Halfway(raw: string, done: Bytes, left: string, n: nat)
    requires |raw| == 32 && |left| == 8 * n
  {
    Groups(raw, 4) == Prefixed(done, Groups(left, n))
  }

  lemma OneGroup(raw: string, done: Bytes, left: string, n: nat)
    requires |raw| == 32 && |left| == 8 * n && n > 0 && Halfway(raw, done, left, n)
    ensures match ParseUnsigned(left[..8], 16, U32_MAX)
            case None => Groups(raw, 4) == None
            case Some(v) => Halfway(raw, done + LittleEndianBytes(v), left[8..], n - 1)
  {
    match ParseUnsigned(left[..8], 16, U32_MAX)
    case None =>
    case Some(v) => PrefixedTwice(done, LittleEndianBytes(v), Groups(left[8..], n - 1));
  }

  lemma NoGroups(raw: string, done: Bytes, left: string)
    requires |raw| == 32 && left == "" && Halfway(raw, done, left, 0)
    ensures Groups(raw, 4) == Some(done)
  {
    assert done + [] == done;
  }

  /** The loop over the four groups, with the array it fills. */
  method FormatIpv6(raw: string) returns (r: Option<Bytes>)
    ensures r == ParseIpv6(raw)
  {
    if |raw| != 32 {
      return None;
    }
    var bytes := new byte[16](_ => 0);
    var left := raw;
    assert Halfway(raw, [], raw, 4) by {
      if Groups(raw, 4).Some? { assert [] + Groups(raw, 4).value == Groups(raw, 4).value; }
    }
    for group := 0 to 4
      invariant left == raw[8 * group..] && Halfway(raw, bytes[..4 * group], left, 4 - group)
    {
      OneGroup(raw, bytes[..4 * group], left, 4 - group);
      var value := ParseUnsigned(left[..8], 16, U32_MAX);
      if value.None? {
        return None;
      }
      Store(bytes, 4 * group, LittleEndianBytes(value.value));
      left := left[8..];
    }
    assert bytes[..16] == bytes[..];
    NoGroups(raw, bytes[..], left);
    return Some(bytes[..]);
  }

  method Store(a: array<byte>, at: nat, le: Bytes)
    requires |le| == 4 && at + 4 <= a.Length
    modifies a
    ensures a[..at] == old(a[..at]) && a[at..at + 4] == le && a[..at + 4] == old(a[..at]) + le
  {
    a[at], a[at + 1], a[at + 2], a[at + 3] := le[0], le[1], le[2], le[3];
    assert a[at..at + 4] == le;
    assert a[..at + 4] == a[..at] + a[at..at + 4];
  }

  function ParseIpv6(raw: string): Option<Bytes> {
    if |raw| != 32 then None else Groups(raw, 4)
  }

  function ParseEndpoint(value: string, family: Family): Option<Endpoint> {
    match Find(value, ':')
    case None => None
    case Some(i) =>
      if i + 1 > |value| then None
      else
        match ParseUnsigned(value[i + 1..], 16, U16_MAX)
        case None => None
        case Some(port) =>
          match ParseAddress(value[..i], family)
          case None => None
          case Some(address) => Some(Endpoint(address, port))
  }

  function RemotePort(value: string): nat {
    match FindLast(value, ':')
    case None => 0
    case Some(i) =>
      if i + 1 > |value| then 0
      else match ParseUnsigned(value[i + 1..], 16, U16_MAX) case None => 0 case Some(p) => p
  }

  function ParseNetLine(line: string, family: Family): Option<NetEntry> {
    var columns := SplitWhitespace(line);
    if |columns| < 10 then None
    else
      match (ParseUnsigned(columns[3], 16, U8_MAX), ParseUnsigned(columns[7], 10, U32_MAX),
             ParseUnsigned(columns[9], 10, U64_MAX), ParseEndpoint(columns[1], family))
      case (Some(state), Some(uid), Some(inode), Some(local)) =>
        Some(NetEntry(inode, local, RemotePort(columns[2]), state, uid))
      case _ => None
  }

  // ---- looking for a listening port ----

  /** `lines`: no final empty line, and no carriage return at the end of one. */
  function Lines(text: string): seq<string> {
    var pieces := Split(text, '\n');
    var kept := if pieces[|pieces| - 1] == "" then pieces[..|pieces| - 1] else pieces;
    seq(|kept|, i requires 0 <= i < |kept| => StripReturn(kept[i]))
  }

  function StripReturn(s: string): string {
    if s != "" && s[|s| - 1] == '\r' then s[..|s| - 1] else s
  }

  predicate EndsWith(s: string, t: string) {
    |t| <= |s| && s[|s| - |t|..] == t
  }

  predicate LineListens(line: string, port: nat) {
    var columns := SplitWhitespace(line);
    |columns| >= 4 && EndsWith(columns[1], ":" + Hex(port, 4)) && columns[3] == "0A"
  }

  predicate TextHasListeningPort(text: string, port: nat) {
    var lines := Lines(text);
    exists i | 1 <= i < |lines| :: LineListens(lines[i], port)
  }

  // ---- one row, both readers ----

  lemma WordBytes(b: Bytes)
    requires |b| == 4
    ensures Word(b) <= U32_MAX && LittleEndianBytes(Word(b)) == b
    ensures var be := BigEndianBytes(Word(b)); [be[3], be[2], be[1], be[0]] == b
  {
    var n := Word(b);
    assert n / 0x100 == b[1] as int + 0x100 * b[2] as int + 0x1_0000 * b[3] as int;
    assert n / 0x1_0000 == b[2] as int + 0x100 * b[3] as int;
    assert n / 0x100_0000 == b[3] as int;
  }

  lemma WordReadBack(b: Bytes)
    requires |b| == 4
    ensures |WordText(b)| == 8 && Digits(WordText(b))
    ensures var v := ParseUnsigned(WordText(b), 16, U32_MAX);
            && v.Some? && v.value <= U32_MAX
            && LittleEndianBytes(v.value) == b
            && var be := BigEndianBytes(v.value); [be[3], be[2], be[1], be[0]] == b
  {
    WordBytes(b);
    Powers();
    HexValue(Word(b), 8);
    ParseHex(Word(b), 8, U32_MAX);
  }

  lemma AddressFirst(word: Bytes, rest: Bytes)
    requires |word| == 4
    ensures AddressText(word + rest) == WordText(word) + AddressText(rest)
  {
    assert (word + rest)[..4] == word && (word + rest)[4..] == rest;
  }

  lemma {:induction false} AddressIsHex(b: Bytes, n: nat)
    requires |b| == 4 * n
    ensures Digits(AddressText(b)) && |AddressText(b)| == 8 * n
    decreases n
  {
    if n > 0 {
      WordReadBack(b[..4]);
      AddressIsHex(b[4..], n - 1);
      AddressFirst(b[..4], b[4..]);
      assert b[..4] + b[4..] == b;
    }
  }

  lemma GroupsUnfold(head: string, tail: string, n: nat, word: Bytes, rest: Bytes)
    requires |head| == 8 && |tail| == 8 * (n - 1) && n > 0 && |word| == 4
    requires var v := ParseUnsigned(head, 16, U32_MAX);
             v.Some? && v.value <= U32_MAX && LittleEndianBytes(v.value) == word
    requires Groups(tail, n - 1) == Some(rest)
    ensures Groups(head + tail, n) == Some(word + rest)
  {
    assert (head + tail)[..8] == head && (head + tail)[8..] == tail;
  }

  lemma {:induction false} GroupsReadBack(b: Bytes, n: nat)
    requires |b| == 4 * n
    ensures |AddressText(b)| == 8 * n && Groups(AddressText(b), n) == Some(b)
    decreases n
  {
    AddressIsHex(b, n);
    if n > 0 {
      GroupsReadBack(b[4..], n - 1);
      WordReadBack(b[..4]);
      GroupsUnfold(WordText(b[..4]), AddressText(b[4..]), n, b[..4], b[4..]);
      AddressFirst(b[..4], b[4..]);
      assert b[..4] + b[4..] == b;
    }
  }

  function ParseAddress(raw: string, family: Family): Option<Bytes> {
    match family case Ipv4 => ParseIpv4(raw) case Ipv6 => ParseIpv6(raw)
  }

  lemma AddressReadBack(address: Bytes, family: Family)
    requires |address| == AddressSize(family)
    ensures ParseAddress(AddressText(address), family) == Some(address)
  {
    match family
    case Ipv4 =>
      WordReadBack(address);
      assert address[..4] == address && address[4..] == [];
      assert AddressText(address) == WordText(address) + "" == WordText(address);
    case Ipv6 => GroupsReadBack(address, 4);
  }

  lemma EndpointReadBack(e: Endpoint, family: Family)
    requires |e.address| == AddressSize(family) && e.port <= U16_MAX
    ensures ParseEndpoint(EndpointText(e), family) == Some(e) && RemotePort(EndpointText(e)) == e.port
    ensures Solid(EndpointText(e))
  {
    var raw, port := AddressText(e.address), Hex(e.port, 4);
    var text := EndpointText(e);
    AddressIsHex(e.address, AddressSize(family) / 4);
    AddressReadBack(e.address, family);
    Powers();
    HexValue(e.port, 4);
    ParseHex(e.port, 4, U16_MAX);
    assert text == raw + [':'] + port;
    FindFirst(raw, ':', port);
    FindLastOne(raw, ':', port);
    assert text[|raw| + 1..] == port && text[..|raw|] == raw;
  }

  lemma ColumnsAreSolid(r: Row, family: Family)
    requires RowOk(r, family)
    ensures forall c <- RowColumns(r) :: Solid(c)
  {
    EndpointReadBack(r.local, family);
    EndpointReadBack(r.remote, family);
    Powers();
    HexValue(r.state, 2);
    DigitsAreSolid(Hex(r.state, 2));
    DecValue(r.uid);
    DigitsAreSolid(Dec(r.uid));
    DecValue(r.inode);
    DigitsAreSolid(Dec(r.inode));
    forall c <- RowColumns(r)
      ensures Solid(c)
    {
      if c !in r.more {
        assert c in {r.slot, EndpointText(r.local), EndpointText(r.remote), Hex(r.state, 2), r.queues, r.timer,
                     r.retransmit, Dec(r.uid), r.timeout, Dec(r.inode)};
      }
    }
  }

  lemma ColumnsReadBack(line: string, r: Row, family: Family, pads: seq<string>)
    requires Prints(line, r, family, pads)
    ensures SplitWhitespace(line) == RowColumns(r)
  {
    ColumnsAreSolid(r, family);
    SplitLayout(RowColumns(r), pads);
  }

  /** The row reader recovers the port, the state, the user, the inode and every address byte. */
  lemma RowReadBack(line: string, r: Row, family: Family, pads: seq<string>)
    requires Prints(line, r, family, pads)
    ensures ParseNetLine(line, family) == Some(NetEntry(r.inode, r.local, r.remote.port, r.state, r.uid))
  {
    ColumnsReadBack(line, r, family, pads);
    EndpointReadBack(r.local, family);
    EndpointReadBack(r.remote, family);
    Powers();
    ParseHex(r.state, 2, U8_MAX);
    ParseDec(r.uid, U32_MAX);
    ParseDec(r.inode, U64_MAX);
  }

  lemma HexInjective(a: nat, b: nat, width: nat)
    requires a < Power16(width) && b < Power16(width) && Hex(a, width) == Hex(b, width)
    ensures a == b
  {
    HexValue(a, width);
    HexValue(b, width);
  }

  lemma ListenHex()
    ensures Hex(LISTEN, 2) == "0A"
  {
    assert Hex(0x0A, 2) == Hex(0, 1) + [DigitChar(10)];
    assert Hex(0, 1) == Hex(0, 0) + [DigitChar(0)];
  }

  /** The text reader sees a listening row exactly where the row reader does. */
  lemma RowListens(line: string, r: Row, family: Family, pads: seq<string>, port: nat)
    requires Prints(line, r, family, pads) && port <= U16_MAX
    ensures LineListens(line, port) <==> r.local.port == port && r.state == LISTEN
  {
    ColumnsReadBack(line, r, family, pads);
    Powers();
    var text, wanted := EndpointText(r.local), ":" + Hex(port, 4);
    assert text[|text| - 5..] == ":" + Hex(r.local.port, 4);
    if EndsWith(text, wanted) {
      assert (":" + Hex(r.local.port, 4))[1..] == Hex(r.local.port, 4) && wanted[1..] == Hex(port, 4);
      HexInjective(r.local.port, port, 4);
    }
    ListenHex();
    if Hex(r.state, 2) == "0A" {
      HexInjective(r.state, LISTEN, 2);
    }
  }

  // ---- whole tables ----

  function TableText(lines: seq<string>): string {
    if lines == [] then "" else lines[0] + "\n" + TableText(lines[1..])
  }

  lemma {:induction false} TablePieces(lines: seq<string>)
    requires forall l <- lines :: '\n' !in l
    ensures Split(TableText(lines), '\n') == lines + [""]
  {
    if lines != [] {
      assert TableText(lines) == lines[0] + ['\n'] + TableText(lines[1..]);
      SplitFirst(lines[0], TableText(lines[1..]), '\n');
      TablePieces(lines[1..]);
      assert [lines[0]] + (lines[1..] + [""]) == lines + [""];
    }
  }

  lemma TableLines(lines: seq<string>)
    requires forall l <- lines :: '\n' !in l
    ensures |Lines(TableText(lines))| == |lines|
    ensures forall i | 0 <= i < |lines| :: Lines(TableText(lines))[i] == StripReturn(lines[i])
  {
    TablePieces(lines);
    assert (lines + [""])[..|lines|] == lines;
  }

  lemma {:induction false} LayoutChars(columns: seq<string>, pads: seq<string>)
    requires |pads| == |columns| + 1
    requires (forall p <- pads :: Spaces(p)) && (forall c <- columns :: Solid(c))
    ensures forall c <- Layout(columns, pads) :: c == ' ' || !IsWhite(c)
  {
    assert pads[0] in pads;
    if columns != [] {
      assert columns[0] in columns;
      LayoutChars(columns[1..], pads[1..]);
    }
  }

  lemma PrintedLine(line: string, r: Row, family: Family, pads: seq<string>)
    requires Prints(line, r, family, pads)
    ensures '\n' !in line && StripReturn(line) == line
  {
    ColumnsAreSolid(r, family);
    LayoutChars(RowColumns(r), pads);
    if line != "" {
      assert line[|line| - 1] in line;
    }
  }

  lemma RowsLines(header: string, lines: seq<string>, rows: seq<Row>, pads: seq<seq<string>>, family: Family)
    requires '\n' !in header && |lines| == |rows| == |pads|
    requires forall i | 0 <= i < |lines| :: Prints(lines[i], rows[i], family, pads[i])
    ensures var read := Lines(TableText([header] + lines));
            |read| == |lines| + 1 && forall i | 0 <= i < |lines| :: read[i + 1] == lines[i]
  {
    var all := [header] + lines;
    forall l <- all
      ensures '\n' !in l
    {
      if l != header {
        var i :| 0 <= i < |lines| && lines[i] == l;
        PrintedLine(l, rows[i], family, pads[i]);
      }
    }
    TableLines(all);
    forall i | 0 <= i < |lines|
      ensures Lines(TableText(all))[i + 1] == lines[i]
    {
      assert all[i + 1] == lines[i];
      PrintedLine(lines[i], rows[i], family, pads[i]);
    }
  }

  /** A row that parses to local port `port` in state listen. */
  predicate ParsesToListener(line: string, family: Family, port: nat) {
    var e := ParseNetLine(line, family);
    e.Some? && e.value.local.port == port && e.value.state == LISTEN
  }

  /**
   On any table in the kernel's layout, whatever its header: the text has port
   `p` listening exactly when some data row parses to local port `p` in state
   listen.
   */
  lemma ReadersAgree(header: string, lines: seq<string>, rows: seq<Row>, pads: seq<seq<string>>, family: Family,
                     port: nat)
    requires '\n' !in header && |lines| == |rows| == |pads| && port <= U16_MAX
    requires forall i | 0 <= i < |lines| :: Prints(lines[i], rows[i], family, pads[i])
    ensures TextHasListeningPort(TableText([header] + lines), port) <==>
              exists i | 0 <= i < |lines| :: ParsesToListener(lines[i], family, port)
  {
    var read := Lines(TableText([header] + lines));
    RowsLines(header, lines, rows, pads, family);
    forall i | 0 <= i < |lines|
      ensures LineListens(lines[i], port) <==> ParsesToListener(lines[i], family, port)
    {
      RowReadBack(lines[i], rows[i], family, pads[i]);
      RowListens(lines[i], rows[i], family, pads[i], port);
    }
    if exists i | 0 <= i < |lines| :: ParsesToListener(lines[i], family, port) {
      var i :| 0 <= i < |lines| && ParsesToListener(lines[i], family, port);
      assert LineListens(read[i + 1], port);
    }
    if TextHasListeningPort(TableText([header] + lines), port) {
      var j :| 1 <= j < |read| && LineListens(read[j], port);
      assert read[(j - 1) + 1] == lines[j - 1];
    }
  }
}
