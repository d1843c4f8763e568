/** Building the command that runs a hosted binary in the device's interactive shell. */
module DeviceShell {
  import opened PosixLexer
  import opened Text
  import opened Wrappers

  datatype Block = NoAdb | NoSerial | BadSerial | BadName

  datatype Launch = Launch(program: string, args: seq<string>)

  datatype Request = Request(dir: string, name: string, args: seq<string>, root: bool)

  const DEFAULT_DIR := "/data/local/tmp"

  // ---- text helpers ----

  function TrimStart(s: string): string {
    if s != "" && IsSpace(s[0]) then TrimStart(s[1..]) else s
  }

  function TrimEnd(s: string): string {
    if s != "" && IsSpace(s[|s| - 1]) then TrimEnd(s[..|s| - 1]) else s
  }

  function Trim(s: string): string {
    TrimEnd(TrimStart(s))
  }

  predicate ValidSerial(s: string) {
    1 <= |s| <= 64 && forall c <- s :: 'A' <= c <= 'Z' || 'a' <= c <= 'z' || '0' <= c <= '9' || c in "._:-"
  }

  predicate ValidName(s: string) {
    1 <= |s| <= 120 && forall c <- s :: !IsSpace(c) && c != '/' && c != '\\'
  }

  // ---- quoting ----

  /** Every `'` becomes `'\''`. */
  function EscapeQuotes(v: string): string {
    if v == "" then ""
    else (if v[0] == '\'' then "'\\''" else [v[0]]) + EscapeQuotes(v[1..])
  }

  function ShQuote(v: string): string {
    "'" + EscapeQuotes(v) + "'"
  }

  function QuoteAll(vs: seq<string>): seq<string> {
    if vs == [] then [] else [ShQuote(vs[0])] + QuoteAll(vs[1..])
  }

  function QuotedLine(vs: seq<string>): string {
    Join(QuoteAll(vs), ' ')
  }

  // ---- the launch ----

  function DeviceShellLaunch(adbPath: Option<string>, serial: Option<string>): Result<Launch, Block> {
    var path := match adbPath { case Some(p) => Trim(p) case None => "" };
    if path == "" then Err(NoAdb)
    else
      var id := match serial { case Some(s) => Trim(s) case None => "" };
      if id == "" then Err(NoSerial)
      else if !ValidSerial(id) then Err(BadSerial)
      else Ok(Launch(path, ["-s", id, "shell", "-tt"]))
  }

  function DirOf(request: Request): string {
    var d := Trim(if request.dir == "" then DEFAULT_DIR else request.dir);
    if d == "" then DEFAULT_DIR else d
  }

  function Argv(request: Request): seq<string> {
    var name := Trim(request.name);
    [if '/' in name then name else "./" + name] + request.args
  }

  function Remote(request: Request): string {
    var inner := QuotedLine(Argv(request));
    if request.root then "cd " + ShQuote(DirOf(request)) + " && su -c " + ShQuote(inner)
    else "cd " + ShQuote(DirOf(request)) + " && " + inner
  }

  function HostedBinaryLaunch(adbPath: Option<string>, serial: Option<string>, request: Request)
    : Result<Launch, Block>
  {
    match DeviceShellLaunch(adbPath, serial)
    case Err(block) => Err(block)
    case Ok(base) =>
      if !ValidName(Trim(request.name)) then Err(BadName)
      else Ok(Launch(base.program, base.args + [Remote(request)]))
  }

  // ---- quoting is undone ----

  lemma {:induction false} InsideQuotes(v: string, rest: string, word: string)
    ensures Lex(EscapeQuotes(v) + "'" + rest, SingleQuoted, Some(word)) == Lex(rest, Plain, Some(word + v))
  {
    var s := EscapeQuotes(v) + "'" + rest;
    if v == "" {
      assert s[1..] == rest && word + v == word;
    } else {
      var more := EscapeQuotes(v[1..]) + "'" + rest;
      assert (word + [v[0]]) + v[1..] == word + v;
      InsideQuotes(v[1..], more[|EscapeQuotes(v[1..])| + 1..], word + [v[0]]);
      assert more[|EscapeQuotes(v[1..])| + 1..] == rest;
      if v[0] == '\'' {
        assert s == "'\\''" + more;
        BrokenQuote(more, word);
      } else {
        assert s == [v[0]] + more && s[1..] == more;
      }
    }
  }

  /** Leaving the quotes, one escaped quote, and entering them again. */
  lemma BrokenQuote(more: string, word: string)
    ensures Lex("'\\''" + more, SingleQuoted, Some(word)) == Lex(more, SingleQuoted, Some(word + "'"))
  {
    var s0 := "'\\''" + more;
    var s1, s2, s3 := "\\''" + more, "''" + more, "'" + more;
    assert s0[1..] == s1 && s1[1..] == s2 && s2[1..] == s3 && s3[1..] == more;
    assert (word + "'") + "" == word + "'";
    assert Lex(s0, SingleQuoted, Some(word)) == Lex(s1, Plain, Some(word));
    assert Lex(s1, Plain, Some(word)) == Lex(s2, Escaped, Some(word));
    assert Lex(s2, Escaped, Some(word)) == Lex(s3, Plain, Some(word + "'"));
  }

  lemma ExtendText(v: string, text: string)
    ensures Extend(None, text) == Some(text) && Extend(Some(v), text) == Some(v + text)
  {
    assert "" + text == text;
  }

  /** A quoted value is one piece of one word, exactly the value, whatever it contains. */
  lemma QuotedIsLiteral(v: string, rest: string)
    ensures Lex(ShQuote(v) + rest, Plain, None) == Lex(rest, Plain, Some(v))
  {
    var s := ShQuote(v) + rest;
    assert s[1..] == EscapeQuotes(v) + "'" + rest;
    InsideQuotes(v, rest, "");
    ExtendText("", "");
    assert "" + v == v;
  }

  lemma WordThenSpace(v: string, rest: string)
    ensures Lex(" " + rest, Plain, Some(v)) == Prepend([Word(v)], Lex(rest, Plain, None))
  {
    assert (" " + rest)[1..] == rest;
  }

  lemma {:induction false} QuotedLineIsItsWords(vs: seq<string>)
    ensures Tokens(QuotedLine(vs)) == Some(Words(vs))
  {
    if |vs| == 1 {
      assert QuoteAll(vs) == [ShQuote(vs[0])] + [] == [ShQuote(vs[0])];
      assert QuotedLine(vs) == ShQuote(vs[0]) + "";
      QuotedIsLiteral(vs[0], "");
      assert Words(vs) == [Word(vs[0])];
    } else if |vs| > 1 {
      var rest := QuotedLine(vs[1..]);
      assert QuoteAll(vs)[1..] == QuoteAll(vs[1..]) && |QuoteAll(vs)| > 1;
      assert QuotedLine(vs) == ShQuote(vs[0]) + (" " + rest);
      QuotedIsLiteral(vs[0], " " + rest);
      WordThenSpace(vs[0], rest);
      QuotedLineIsItsWords(vs[1..]);
      assert [Word(vs[0])] + Words(vs[1..]) == Words(vs);
    }
  }

  /** A plain letter, or a dash, is itself. */
  lemma PlainChar(c: char, rest: string, word: Partial)
    requires 'a' <= c <= 'z' || c == '-'
    ensures Lex([c] + rest, Plain, word) == Lex(rest, Plain, Extend(word, [c]))
  {
    assert ([c] + rest)[1..] == rest;
  }

  lemma TwoLetters(a: char, b: char, rest: string)
    requires ('a' <= a <= 'z' || a == '-') && 'a' <= b <= 'z'
    ensures Lex([a, b, ' '] + rest, Plain, None) == Prepend([Word([a, b])], Lex(rest, Plain, None))
  {
    assert [a, b, ' '] + rest == [a] + ([b] + (" " + rest));
    ExtendText("", [a]);
    ExtendText([a], [b]);
    assert [a] + [b] == [a, b];
    PlainChar(a, [b] + (" " + rest), None);
    PlainChar(b, " " + rest, Some([a]));
    WordThenSpace([a, b], rest);
  }

  lemma AndAnd(v: string, rest: string)
    ensures Lex(" && " + rest, Plain, Some(v)) == Prepend([Word(v), Operator("&&")], Lex(rest, Plain, None))
  {
    var s := "&& " + rest;
    assert " && " + rest == " " + s;
    WordThenSpace(v, s);
    assert s[1..][0] == '&' && s[1..][1..] == " " + rest && (" " + rest)[1..] == rest;
    var after := Lex(rest, Plain, None);
    assert Lex(" " + rest, Plain, None) == Prepend(Flush(None), after);
    assert Lex(s, Plain, None) == Prepend(Flush(None) + [Operator(['&', '&'])], Lex(" " + rest, Plain, None));
    if after.Some? {
      assert Flush(None) + after.value == after.value;
      assert Flush(None) + [Operator(['&', '&'])] == [Operator("&&")];
      assert [Word(v)] + ([Operator("&&")] + after.value) == [Word(v), Operator("&&")] + after.value;
    }
  }

  lemma CdPart(dir: string, rest: string, tokens: seq<Token>)
    requires Lex(rest, Plain, None) == Some(tokens)
    ensures Tokens("cd " + ShQuote(dir) + " && " + rest) == Some([Word("cd"), Word(dir), Operator("&&")] + tokens)
  {
    var tail := " && " + rest;
    assert "cd " + ShQuote(dir) + " && " + rest == ['c', 'd', ' '] + (ShQuote(dir) + tail);
    TwoLetters('c', 'd', ShQuote(dir) + tail);
    QuotedIsLiteral(dir, tail);
    AndAnd(dir, rest);
    assert [Word(['c', 'd'])] + ([Word(dir), Operator("&&")] + tokens)
        == [Word("cd"), Word(dir), Operator("&&")] + tokens;
  }

  lemma SuPart(inner: string)
    ensures Tokens("su -c " + ShQuote(inner)) == Some([Word("su"), Word("-c"), Word(inner)])
  {
    var q := ShQuote(inner) + "";
    assert "su -c " + ShQuote(inner) == ['s', 'u', ' '] + (['-', 'c', ' '] + q);
    TwoLetters('s', 'u', ['-', 'c', ' '] + q);
    TwoLetters('-', 'c', q);
    QuotedIsLiteral(inner, "");
    assert [Word(['s', 'u'])] + ([Word(['-', 'c'])] + [Word(inner)]) == [Word("su"), Word("-c"), Word(inner)];
  }

  lemma RootIsUnderstood(request: Request)
    requires request.root
    ensures Tokens(Remote(request)) ==
            Some([Word("cd"), Word(DirOf(request)), Operator("&&")] +
                 [Word("su"), Word("-c"), Word(QuotedLine(Argv(request)))])
  {
    var inner := QuotedLine(Argv(request));
    SuPart(inner);
    CdPart(DirOf(request), "su -c " + ShQuote(inner), [Word("su"), Word("-c"), Word(inner)]);
    assert Remote(request) == "cd " + ShQuote(DirOf(request)) + " && " + ("su -c " + ShQuote(inner));
  }

  // ---- trimming ----

  predicate Blank(s: string) {
    forall c <- s :: IsSpace(c)
  }

  /** `t` is `s` without the white space around it. */
  ghost predicate TrimmedOf(s: string, t: string) {
    && (t != "" ==> !IsSpace(t[0]) && !IsSpace(t[|t| - 1]))
    && exists i, j | 0 <= i <= j <= |s| :: s[i..j] == t && Blank(s[..i]) && Blank(s[j..])
  }

  lemma {:induction false} TrimStartIs(s: string)
    ensures |TrimStart(s)| <= |s| && s[|s| - |TrimStart(s)|..] == TrimStart(s)
    ensures Blank(s[..|s| - |TrimStart(s)|])
    ensures TrimStart(s) != "" ==> !IsSpace(TrimStart(s)[0])
  {
    if s != "" && IsSpace(s[0]) {
      TrimStartIs(s[1..]);
      var k := |s| - |TrimStart(s)|;
      assert s[..k] == [s[0]] + s[1..][..k - 1];
    }
  }

  lemma {:induction false} TrimEndIs(s: string)
    ensures TrimEnd(s) <= s && Blank(s[|TrimEnd(s)|..])
    ensures TrimEnd(s) != "" ==> !IsSpace(TrimEnd(s)[|TrimEnd(s)| - 1])
  {
    if s != "" && IsSpace(s[|s| - 1]) {
      var front := s[..|s| - 1];
      TrimEndIs(front);
      assert s[|TrimEnd(s)|..] == front[|TrimEnd(s)|..] + [s[|s| - 1]];
    }
  }

  lemma TrimIs(s: string)
    ensures TrimmedOf(s, Trim(s))
    ensures Trim(s) == "" <==> Blank(s)
  {
    var u := TrimStart(s);
    TrimStartIs(s);
    TrimEndIs(u);
    var i := |s| - |u|;
    var j := i + |Trim(s)|;
    assert s[i..j] == Trim(s) && s[j..] == u[|Trim(s)|..];
    if Trim(s) == "" {
      assert s == s[..i] + s[j..];
    } else {
      assert Trim(s)[0] == u[0] && u[0] == s[i];
    }
  }

  /** The directory of the request, or the usual one if it names none. */
  ghost predicate Asked(request: Request, dir: string) {
    if Blank(request.dir) then dir == "/data/local/tmp" else TrimmedOf(request.dir, dir)
  }

  lemma DirIs(request: Request)
    ensures Asked(request, DirOf(request))
  {
    TrimIs(request.dir);
    TrimIs(DEFAULT_DIR);
    if request.dir == "" {
      assert !IsSpace(DEFAULT_DIR[0]) && !IsSpace(DEFAULT_DIR[|DEFAULT_DIR| - 1]);
    }
  }

  lemma SerialIs(s: string)
    ensures ValidSerial(s) <==>
              && s != "" && |s| <= 64
              && !exists c <- s :: !('A' <= c <= 'Z' || 'a' <= c <= 'z' || '0' <= c <= '9' || c in {'.', '_', ':', '-'})
  {
  }

  lemma NameIs(s: string)
    ensures ValidName(s) <==>
              && s != "" && |s| <= 120 && '/' !in s && '\\' !in s
              && !exists c <- s :: IsSpace(c)
  {
  }

  /** The launch is refused for the first of these reasons, and otherwise it is made. */
  lemma LaunchIsRefusedIff(adbPath: Option<string>, serial: Option<string>, request: Request)
    ensures var r := HostedBinaryLaunch(adbPath, serial, request);
            if adbPath.None? || Blank(adbPath.value) then r == Err(NoAdb)
            else if serial.None? || Blank(serial.value) then r == Err(NoSerial)
            else if !ValidSerial(Trim(serial.value)) then r == Err(BadSerial)
            else if !ValidName(Trim(request.name)) then r == Err(BadName)
            else r == Ok(Launch(Trim(adbPath.value), ["-s", Trim(serial.value), "shell", "-tt", Remote(request)]))
  {
    if adbPath.Some? {
      TrimIs(adbPath.value);
    }
    if serial.Some? {
      TrimIs(serial.value);
    }
    if HostedBinaryLaunch(adbPath, serial, request).Ok? {
      LaunchArgs(adbPath, serial, request);
    }
  }

  lemma LaunchArgs(adbPath: Option<string>, serial: Option<string>, request: Request)
    requires HostedBinaryLaunch(adbPath, serial, request).Ok?
    ensures serial.Some? && adbPath.Some? && ValidName(Trim(request.name))
    ensures HostedBinaryLaunch(adbPath, serial, request).value ==
            Launch(Trim(adbPath.value), ["-s", Trim(serial.value), "shell", "-tt", Remote(request)])
  {
    var base := ["-s", Trim(serial.value), "shell", "-tt"];
    assert base + [Remote(request)] == ["-s", Trim(serial.value), "shell", "-tt", Remote(request)];
  }

  /**
   The remote command says what was asked for, for every directory, name and
   argument list: the device's shell reads `cd`, the directory, `&&`, and then
   the argument vector; with root it reads one word for `su -c`, and the shell
   that `su` starts reads the same argument vector out of that word.
   */
  lemma LaunchIsUnderstood(adbPath: Option<string>, serial: Option<string>, request: Request) returns (dir: string)
    requires HostedBinaryLaunch(adbPath, serial, request).Ok?
    ensures Asked(request, dir)
    ensures var launch := HostedBinaryLaunch(adbPath, serial, request).value;
            var argv := ["./" + Trim(request.name)] + request.args;
            var inner := QuotedLine(argv);
            && |launch.args| == 5 && launch.args[..4] == ["-s", Trim(serial.value), "shell", "-tt"]
            && Tokens(launch.args[4]) == Some([Word("cd"), Word(dir), Operator("&&")] +
                 if request.root then [Word("su"), Word("-c"), Word(inner)] else Words(argv))
            && Tokens(inner) == Some(Words(argv))
  {
    dir := DirOf(request);
    DirIs(request);
    LaunchArgs(adbPath, serial, request);
    RemoteIsUnderstood(request);
  }

  lemma RemoteIsUnderstood(request: Request)
    requires ValidName(Trim(request.name))
    ensures var argv := ["./" + Trim(request.name)] + request.args;
            var inner := QuotedLine(argv);
            && Tokens(Remote(request)) == Some([Word("cd"), Word(DirOf(request)), Operator("&&")] +
                 if request.root then [Word("su"), Word("-c"), Word(inner)] else Words(argv))
            && Tokens(inner) == Some(Words(argv))
  {
    var argv := Argv(request);
    assert argv == ["./" + Trim(request.name)] + request.args;
    QuotedLineIsItsWords(argv);
    if request.root {
      RootIsUnderstood(request);
    } else {
      CdPart(DirOf(request), QuotedLine(argv), Words(argv));
    }
  }

  /** Different argument vectors never become the same command. */
  lemma QuotingIsInjective(a: seq<string>, b: seq<string>)
    requires QuotedLine(a) == QuotedLine(b)
    ensures a == b
  {
    QuotedLineIsItsWords(a);
    QuotedLineIsItsWords(b);
    assert |Words(a)| == |a| && |Words(b)| == |b|;
    forall i | 0 <= i < |a|
      ensures a[i] == b[i]
    {
      assert Words(a)[i] == Word(a[i]) && Words(b)[i] == Word(b[i]);
    }
  }
}
