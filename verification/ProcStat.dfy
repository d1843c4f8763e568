/** Three readers of `/proc/<pid>/stat`, on lines whose process name may contain anything. */
module ProcStat {
  import opened ProcText
  import opened Wrappers

  const U32_MAX: nat := 0xffff_ffff
  const U64_MAX: nat := 0xffff_ffff_ffff_ffff

  /** The line the kernel prints: the pid, the name in parentheses, then the other columns. */
  function StatLine(pid: nat, comm: string, columns: seq<string>, pads: seq<string>): string
    requires |pads| == |columns| + 1
  {
    Dec(pid) + " (" + comm + ")" + Layout(columns, pads)
  }

  /** The columns after the name: no parenthesis, state first, ppid second, start time at place 22. */
  ghost predicate StatColumns(columns: seq<string>, pads: seq<string>, state: char, ppid: nat, ticks: nat) {
    && Laid(columns, pads) && ')' !in Layout(columns, pads)
    && |columns| >= 20 && columns[0] != "" && columns[0][0] == state
    && columns[1] == Dec(ppid) && columns[19] == Dec(ticks)
    && ppid <= U32_MAX && ticks <= U64_MAX
  }

  // ---- the readers ----

  function ParseStartTimeTicks(stat: string): Option<nat> {
    match FindLast(stat, ')')
    case None => None
    case Some(closer) =>
      if closer + 1 > |stat| then None
      else
        var columns := SplitWhitespace(stat[closer + 1..]);
        if |columns| <= 19 then None else ParseUnsigned(columns[19], 10, U64_MAX)
  }

  datatype Identity = Identity(comm: string, ppid: nat, state: char)

  function ParseCommPpidState(stat: string): Option<Identity> {
    match (Find(stat, '('), FindLast(stat, ')'))
    case (Some(open), Some(close)) =>
      if close < open || close + 1 > |stat| then None
      else
        var columns := SplitWhitespace(stat[close + 1..]);
        if |columns| < 2 || columns[0] == "" then None
        else
          var ppid := match ParseUnsigned(columns[1], 10, U32_MAX) { case Some(p) => p case None => 0 };
          Some(Identity(if open < close then stat[open + 1..close] else "", ppid, columns[0][0]))
    case _ => None
  }

  function TrimStart(s: string): string {
    if s != "" && IsWhite(s[0]) then TrimStart(s[1..]) else s
  }

  /** The state character as `poll_dead` reads it. */
  function PolledState(stat: string): Option<char> {
    match FindLast(stat, ')')
    case None => None
    case Some(closer) =>
      if closer + 1 > |stat| then None
      else
        var tail := TrimStart(stat[closer + 1..]);
        if tail == "" then None else Some(tail[0])
  }

  // ---- they read back what was printed ----

  lemma {:induction false} TrimStartSkips(pad: string, rest: string)
    requires Blank(pad) && rest != "" && !IsWhite(rest[0])
    ensures TrimStart(pad + rest) == rest
  {
    if pad == "" {
      assert pad + rest == rest;
    } else {
      assert (pad + rest)[1..] == pad[1..] + rest;
      TrimStartSkips(pad[1..], rest);
    }
  }

  lemma LastParenthesis(pid: nat, comm: string, tail: string)
    requires ')' !in tail
    ensures var stat := Dec(pid) + " (" + comm + ")" + tail;
            FindLast(stat, ')') == Some(|Dec(pid)| + 2 + |comm|)
  {
    var head := Dec(pid) + " (" + comm;
    assert Dec(pid) + " (" + comm + ")" + tail == head + [')'] + tail;
    FindLastOne(head, ')', tail);
  }

  lemma FirstParenthesis(pid: nat, rest: string)
    ensures Find(Dec(pid) + " (" + rest, '(') == Some(|Dec(pid)| + 1)
  {
    var head := Dec(pid) + " ";
    DecValue(pid);
    assert Dec(pid) + " (" + rest == head + ['('] + rest;
    FindFirst(head, '(', rest);
  }

  lemma Positions(pid: nat, comm: string, tail: string)
    requires ')' !in tail
    ensures var stat := Dec(pid) + " (" + comm + ")" + tail;
            var open, close := |Dec(pid)| + 1, |Dec(pid)| + 2 + |comm|;
            && Find(stat, '(') == Some(open) && FindLast(stat, ')') == Some(close) && close < |stat|
            && stat[close + 1..] == tail && stat[open + 1..close] == comm
  {
    LastParenthesis(pid, comm, tail);
    FirstParenthesis(pid, comm + ")" + tail);
    Parts(Dec(pid), comm, tail);
  }

  lemma Parts(pid: string, comm: string, tail: string)
    ensures var stat := pid + " (" + comm + ")" + tail;
            var open, close := |pid| + 1, |pid| + 2 + |comm|;
            && stat == pid + " (" + (comm + ")" + tail) && close < |stat|
            && stat[close + 1..] == tail && stat[open + 1..close] == comm
  {
    var stat := pid + " (" + comm + ")" + tail;
    assert stat[|pid| + 2 + |comm| + 1..] == tail;
    assert stat[|pid| + 2..|pid| + 2 + |comm|] == comm;
  }

  lemma TailStarts(columns: seq<string>, pads: seq<string>)
    requires Laid(columns, pads) && columns != []
    ensures columns[0] != "" && TrimStart(Layout(columns, pads)) == columns[0] + Layout(columns[1..], pads[1..])
  {
    assert columns[0] in columns && pads[0] in pads;
    var rest := Layout(columns[1..], pads[1..]);
    TrimStartSkips(pads[0], columns[0] + rest);
    assert Layout(columns, pads) == pads[0] + (columns[0] + rest);
  }

  lemma ReadTicks(stat: string, close: nat, columns: seq<string>, ticks: nat)
    requires FindLast(stat, ')') == Some(close) && close < |stat| && SplitWhitespace(stat[close + 1..]) == columns
    requires |columns| >= 20 && columns[19] == Dec(ticks) && ticks <= U64_MAX
    ensures ParseStartTimeTicks(stat) == Some(ticks)
  {
    ParseDec(ticks, U64_MAX);
  }

  lemma ReadIdentity(stat: string, open: nat, close: nat, columns: seq<string>, ppid: nat)
    requires Find(stat, '(') == Some(open) && FindLast(stat, ')') == Some(close) && open < close < |stat|
    requires SplitWhitespace(stat[close + 1..]) == columns
    requires |columns| >= 2 && columns[0] != "" && columns[1] == Dec(ppid) && ppid <= U32_MAX
    ensures ParseCommPpidState(stat) == Some(Identity(stat[open + 1..close], ppid, columns[0][0]))
  {
    ParseDec(ppid, U32_MAX);
  }

  lemma ReadState(stat: string, close: nat, columns: seq<string>, pads: seq<string>)
    requires FindLast(stat, ')') == Some(close) && close < |stat|
    requires Laid(columns, pads) && columns != [] && stat[close + 1..] == Layout(columns, pads)
    ensures columns[0] != "" && PolledState(stat) == Some(columns[0][0])
  {
    TailStarts(columns, pads);
  }

  lemma AllReaders(stat: string, open: nat, close: nat, columns: seq<string>, pads: seq<string>,
                   state: char, ppid: nat, ticks: nat)
    requires StatColumns(columns, pads, state, ppid, ticks)
    requires Find(stat, '(') == Some(open) && FindLast(stat, ')') == Some(close) && open < close < |stat|
    requires stat[close + 1..] == Layout(columns, pads)
    ensures ParseStartTimeTicks(stat) == Some(ticks)
    ensures ParseCommPpidState(stat) == Some(Identity(stat[open + 1..close], ppid, state))
    ensures PolledState(stat) == Some(state)
  {
    SplitLayout(columns, pads);
    ReadTicks(stat, close, columns, ticks);
    ReadIdentity(stat, open, close, columns, ppid);
    ReadState(stat, close, columns, pads);
  }

  /**
   For every process name, parentheses and spaces included: all three readers
   return what was printed.  The last closing parenthesis is what makes it so.
   */
  lemma StatReadBack(pid: nat, comm: string, columns: seq<string>, pads: seq<string>, state: char, ppid: nat,
                     ticks: nat)
    requires StatColumns(columns, pads, state, ppid, ticks)
    ensures var stat := StatLine(pid, comm, columns, pads);
            && ParseStartTimeTicks(stat) == Some(ticks)
            && ParseCommPpidState(stat) == Some(Identity(comm, ppid, state))
            && PolledState(stat) == Some(state)
  {
    Positions(pid, comm, Layout(columns, pads));
    var open, close := |Dec(pid)| + 1, |Dec(pid)| + 2 + |comm|;
    AllReaders(StatLine(pid, comm, columns, pads), open, close, columns, pads, state, ppid, ticks);
  }
}
