/**
 How a POSIX shell cuts a command line into words and operators and removes the
 quoting: sections 2.2 (Quoting) and 2.3 (Token Recognition) of the Shell
 Command Language in POSIX.1-2017.

 A command line on which anything would be expanded or that leaves a quote open
 has no reading here (None).
 */
module PosixLexer {
  import opened Wrappers

  datatype Token = Word(text: string) | Operator(text: string)

  datatype Mode =
    | Plain
    | Escaped        // after an unquoted backslash
    | SingleQuoted
    | DoubleQuoted
    | DoubleEscaped  // after a backslash between double quotes

  /** The word being read, if one has begun; `''` begins an empty one. */
  type Partial = Option<string>

  function Extend(word: Partial, text: string): Partial {
    Some((match word case None => "" case Some(w) => w) + text)
  }

  function Flush(word: Partial): seq<Token> {
    match word
    case None => []
    case Some(w) => [Word(w)]
  }

  function Prepend(tokens: seq<Token>, rest: Option<seq<Token>>): Option<seq<Token>> {
    match rest
    case None => None
    case Some(ts) => Some(tokens + ts)
  }

  predicate Doubles(c: char) {
    c == '&' || c == '|' || c == ';'
  }

  predicate OperatorStart(c: char) {
    Doubles(c) || c == '<' || c == '>' || c == '(' || c == ')' || c == '\n'
  }

  /** Unquoted, these start an expansion, a pattern, or a comment. */
  predicate Special(c: char, word: Partial) {
    c in "$`*?[" || (word.None? && (c == '~' || c == '#'))
  }

  function Lex(s: string, mode: Mode, word: Partial): Option<seq<Token>>
    decreases |s|
  {
    match mode
    case Plain =>
      if s == "" then Some(Flush(word))
      else
        var c, rest := s[0], s[1..];
        if c == '\'' then Lex(rest, SingleQuoted, Extend(word, ""))
        else if c == '"' then Lex(rest, DoubleQuoted, Extend(word, ""))
        else if c == '\\' then Lex(rest, Escaped, word)
        else if c == ' ' || c == '\t' then Prepend(Flush(word), Lex(rest, Plain, None))
        else if OperatorStart(c) then
          if Doubles(c) && rest != "" && rest[0] == c
          then Prepend(Flush(word) + [Operator([c, c])], Lex(rest[1..], Plain, None))
          else Prepend(Flush(word) + [Operator([c])], Lex(rest, Plain, None))
        else if Special(c, word) then None
        else Lex(rest, Plain, Extend(word, [c]))
    case Escaped =>
      if s == "" then None
      else if s[0] == '\n' then Lex(s[1..], Plain, word)
      else Lex(s[1..], Plain, Extend(word, [s[0]]))
    case SingleQuoted =>
      if s == "" then None
      else if s[0] == '\'' then Lex(s[1..], Plain, word)
      else Lex(s[1..], SingleQuoted, Extend(word, [s[0]]))
    case DoubleQuoted =>
      if s == "" || s[0] == '$' || s[0] == '`' then None
      else if s[0] == '"' then Lex(s[1..], Plain, word)
      else if s[0] == '\\' then Lex(s[1..], DoubleEscaped, word)
      else Lex(s[1..], DoubleQuoted, Extend(word, [s[0]]))
    case DoubleEscaped =>
      if s == "" then None
      else if s[0] == '\n' then Lex(s[1..], DoubleQuoted, word)
      else if s[0] in "$`\"\\" then Lex(s[1..], DoubleQuoted, Extend(word, [s[0]]))
      else Lex(s[1..], DoubleQuoted, Extend(word, ['\\', s[0]]))
  }

  /** The tokens of a command line. */
  function Tokens(line: string): Option<seq<Token>> {
    Lex(line, Plain, None)
  }

  function Words(texts: seq<string>): seq<Token> {
    seq(|texts|, i requires 0 <= i < |texts| => Word(texts[i]))
  }
}
