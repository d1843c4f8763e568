/** Reading numbers and columns out of kernel text, and the kernel's way of printing them. */
module ProcText {
  import opened Wrappers

  predicate IsWhite(c: char) {
    var n := c as int;
    || 9 <= n <= 13 || n == 0x20 || n == 0x85 || n == 0xa0 || n == 0x1680 || 0x2000 <= n <= 0x200a
    || n == 0x2028 || n == 0x2029 || n == 0x202f || n == 0x205f || n == 0x3000
  }

  // ---- numbers ----

  function DigitChar(d: nat): char
    requires d < 16
  {
    if d < 10 then ('0' as int + d) as char else ('A' as int + d - 10) as char
  }

  function DigitValue(c: char): Option<nat> {
    if '0' <= c <= '9' then Some(c as int - '0' as int)
    else if 'A' <= c <= 'F' then Some(c as int - 'A' as int + 10)
    else if 'a' <= c <= 'f' then Some(c as int - 'a' as int + 10)
    else None
  }

  /** The value of a string of digits; None if there is something else in it. */
  function Value(s: string, radix: nat): Option<nat> {
    if s == "" then Some(0)
    else match Value(s[..|s| - 1], radix)
      case None => None
      case Some(high) =>
        match DigitValue(s[|s| - 1])
        case None => None
        case Some(d) => if d < radix then Some(high * radix + d) else None
  }

  /** An unsigned integer of a machine type: one leading `+` is accepted, overflow is not. */
  function ParseUnsigned(s: string, radix: nat, max: nat): Option<nat> {
    var digits := if s != "" && s[0] == '+' then s[1..] else s;
    if digits == "" then None
    else match Value(digits, radix)
      case None => None
      case Some(n) => if n <= max then Some(n) else None
  }

  /** `%0wX`: exactly `width` upper-case digits, for numbers that fit. */
  function Hex(n: nat, width: nat): (s: string)
    ensures |s| == width
  {
    if width == 0 then "" else Hex(n / 16, width - 1) + [DigitChar(n % 16)]
  }

  function Dec(n: nat): (s: string)
    ensures s != ""
  {
    if n < 10 then [DigitChar(n)] else Dec(n / 10) + [DigitChar(n % 10)]
  }

  function Power16(width: nat): nat {
    if width == 0 then 1 else 16 * Power16(width - 1)
  }

  predicate Digits(s: string) {
    forall c <- s :: '0' <= c <= '9' || 'A' <= c <= 'F'
  }

  lemma AppendDigit(s: string, d: nat, radix: nat)
    requires d < radix && (radix == 10 || radix == 16) && Value(s, radix).Some? && Digits(s)
    ensures Value(s + [DigitChar(d)], radix) == Some(Value(s, radix).value * radix + d)
    ensures Digits(s + [DigitChar(d)])
  {
    var c := DigitChar(d);
    assert DigitValue(c) == Some(d);
    assert (s + [c])[..|s|] == s;
  }

  lemma {:induction false} HexValue(n: nat, width: nat)
    requires n < Power16(width)
    ensures Value(Hex(n, width), 16) == Some(n) && Digits(Hex(n, width))
  {
    if width > 0 {
      HexValue(n / 16, width - 1);
      AppendDigit(Hex(n / 16, width - 1), n % 16, 16);
    }
  }

  lemma {:induction false} DecValue(n: nat)
    ensures Value(Dec(n), 10) == Some(n) && Digits(Dec(n))
  {
    if n < 10 {
      AppendDigit("", n, 10);
      assert "" + [DigitChar(n)] == Dec(n);
    } else {
      DecValue(n / 10);
      AppendDigit(Dec(n / 10), n % 10, 10);
    }
  }

  lemma Powers()
    ensures Power16(2) == 0x100 && Power16(4) == 0x1_0000 && Power16(8) == 0x1_0000_0000
  {
    assert Power16(4) == 16 * 16 * Power16(2);
    assert Power16(6) == 16 * 16 * Power16(4);
    assert Power16(8) == 16 * 16 * Power16(6);
  }

  lemma ParseHex(n: nat, width: nat, max: nat)
    requires n < Power16(width) && n <= max && width > 0
    ensures ParseUnsigned(Hex(n, width), 16, max) == Some(n)
  {
    HexValue(n, width);
    assert Hex(n, width)[0] in Hex(n, width);
  }

  lemma ParseDec(n: nat, max: nat)
    requires n <= max
    ensures ParseUnsigned(Dec(n), 10, max) == Some(n)
  {
    DecValue(n);
    assert Dec(n)[0] in Dec(n);
  }

  // ---- finding characters ----

  function Find(s: string, c: char): Option<nat> {
    if s == "" then None
    else if s[0] == c then Some(0)
    else match Find(s[1..], c)
      case None => None
      case Some(i) => Some(i + 1)
  }

  function FindLast(s: string, c: char): Option<nat> {
    if s == "" then None
    else if s[|s| - 1] == c then Some(|s| - 1)
    else FindLast(s[..|s| - 1], c)
  }

  lemma {:induction false} FindFirst(a: string, c: char, b: string)
    requires c !in a
    ensures Find(a + [c] + b, c) == Some(|a|)
  {
    if a != "" {
      assert (a + [c] + b)[1..] == a[1..] + [c] + b;
      FindFirst(a[1..], c, b);
    }
  }

  lemma {:induction false} FindLastOne(a: string, c: char, b: string)
    requires c !in b
    ensures FindLast(a + [c] + b, c) == Some(|a|)
    decreases |b|
  {
    var s := a + [c] + b;
    if b != "" {
      assert s[..|s| - 1] == a + [c] + b[..|b| - 1];
      FindLastOne(a, c, b[..|b| - 1]);
    }
  }

  // ---- columns ----

  /** `split_whitespace`, with the column read so far. */
  function Columns(s: string, column: string): seq<string> {
    if s == "" then if column == "" then [] else [column]
    else if IsWhite(s[0]) then (if column == "" then [] else [column]) + Columns(s[1..], "")
    else Columns(s[1..], column + [s[0]])
  }

  function SplitWhitespace(s: string): seq<string> {
    Columns(s, "")
  }

  predicate Blank(s: string) {
    forall c <- s :: IsWhite(c)
  }

  predicate Solid(s: string) {
    s != "" && forall c <- s :: !IsWhite(c)
  }

  lemma DigitsAreSolid(s: string)
    requires Digits(s) && s != ""
    ensures Solid(s)
  {
  }

  /** Columns with some white space before, between and after them. */
  function Layout(columns: seq<string>, pads: seq<string>): string
    requires |pads| == |columns| + 1
  {
    pads[0] + if columns == [] then "" else columns[0] + Layout(columns[1..], pads[1..])
  }

  predicate Laid(columns: seq<string>, pads: seq<string>) {
    && |pads| == |columns| + 1
    && (forall p <- pads :: Blank(p))
    && (forall c <- columns :: Solid(c))
    && (forall i | 0 < i < |columns| :: pads[i] != "")
  }

  lemma {:induction false} SkipBlank(pad: string, rest: string)
    requires Blank(pad)
    ensures Columns(pad + rest, "") == Columns(rest, "")
  {
    if pad == "" {
      assert pad + rest == rest;
    } else {
      assert (pad + rest)[1..] == pad[1..] + rest;
      SkipBlank(pad[1..], rest);
      assert [] + Columns(rest, "") == Columns(rest, "");
    }
  }

  lemma {:induction false} TakeSolid(text: string, rest: string, column: string)
    requires forall c <- text :: !IsWhite(c)
    ensures Columns(text + rest, column) == Columns(rest, column + text)
    decreases |text|
  {
    if text == "" {
      assert text + rest == rest && column + text == column;
    } else {
      assert (text + rest)[1..] == text[1..] + rest;
      TakeSolid(text[1..], rest, column + [text[0]]);
      assert column + [text[0]] + text[1..] == column + text;
    }
  }

  lemma EndOfColumn(column: string, rest: string)
    requires column != "" && (rest == "" || IsWhite(rest[0]))
    ensures Columns(rest, column) == [column] + Columns(rest, "")
  {
    if rest == "" {
      assert [column] + Columns(rest, "") == [column];
    } else {
      assert Columns(rest, "") == [] + Columns(rest[1..], "") == Columns(rest[1..], "");
    }
  }

  /** Splitting at white space recovers the columns, however they are padded. */
  lemma {:induction false} SplitLayout(columns: seq<string>, pads: seq<string>)
    requires Laid(columns, pads)
    ensures SplitWhitespace(Layout(columns, pads)) == columns
  {
    assert pads[0] in pads;
    if columns == [] {
      SkipBlank(pads[0], "");
      assert Layout(columns, pads) == pads[0] + "";
    } else {
      var rest := Layout(columns[1..], pads[1..]);
      assert columns[0] in columns && pads[1] in pads;
      SkipBlank(pads[0], columns[0] + rest);
      TakeSolid(columns[0], rest, "");
      assert "" + columns[0] == columns[0];
      if columns[1..] != [] {
        assert rest[0] == pads[1][0];
      } else {
        assert rest == pads[1] + "";
      }
      EndOfColumn(columns[0], rest);
      SplitLayout(columns[1..], pads[1..]);
      assert [columns[0]] + columns[1..] == columns;
    }
  }
}
