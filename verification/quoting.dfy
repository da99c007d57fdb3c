/** The two quoting layers of the macOS installer: words quoted for /bin/sh, inside a command
    quoted as an AppleScript literal. */
module Quoting {
  import Bytes
  import opened Shell

  // Dart strings; nothing here depends on their encoding.

  /** replaceAll with a one-character pattern. */
  function ReplaceAll(s: string, c: char, with: string): string {
    if s == [] then []
    else (if s[0] == c then with else [s[0]]) + ReplaceAll(s[1..], c, with)
  }

  /** _sh. */
  function Sh(s: string): string { "'" + ReplaceAll(s, '\'', "'\\''") + "'" }

  /** _appleScriptString: two passes, the second over the output of the first. */
  function AppleScriptString(s: string): string {
    "\"" + ReplaceAll(ReplaceAll(s, '\\', "\\\\"), '\"', "\\\"") + "\""
  }

  // ---- AppleScript's reading of a literal ----

  // What a literal denotes, and the text after its closing quote.
  datatype Literal = Unterminated | Literal(text: string, rest: string)

  /** Inside a literal: a backslash takes the next character, \n, \r and \t denoting controls. */
  function ReadBody(s: string): Literal {
    if s == [] then Unterminated
    else if s[0] == '\"' then Literal("", s[1..])
    else if s[0] == '\\' then
      if |s| < 2 then Unterminated else Prepend(Unescaped(s[1]), ReadBody(s[2..]))
    else Prepend(s[0], ReadBody(s[1..]))
  }

  function Prepend(c: char, l: Literal): Literal {
    match l case Unterminated => Unterminated case Literal(text, rest) => Literal([c] + text, rest)
  }

  function Unescaped(c: char): char {
    if c == 'n' then '\n' else if c == 'r' then '\r' else if c == 't' then '\t' else c
  }

  function ReadLiteral(s: string): Literal {
    if s == [] || s[0] != '\"' then Unterminated else ReadBody(s[1..])
  }

  function EscapedChar(c: char): string {
    if c == '\\' then "\\\\" else if c == '\"' then "\\\"" else [c]
  }

  /** The two passes together escape each character once: the second never touches a backslash
      of the first, and the first never sees one of the second. */
  function EscapedAll(s: string): string {
    if s == [] then [] else EscapedChar(s[0]) + EscapedAll(s[1..])
  }

  lemma {:induction false} ReplaceAllAppend(a: string, b: string, c: char, with: string)
    ensures ReplaceAll(a + b, c, with) == ReplaceAll(a, c, with) + ReplaceAll(b, c, with)
  {
    if a == [] {
      assert a + b == b;
    } else {
      assert (a + b)[1..] == a[1..] + b;
      ReplaceAllAppend(a[1..], b, c, with);
    }
  }

  lemma {:induction false} TwoPasses(s: string)
    ensures ReplaceAll(ReplaceAll(s, '\\', "\\\\"), '\"', "\\\"") == EscapedAll(s)
  {
    if s != [] {
      var first := if s[0] == '\\' then "\\\\" else [s[0]];
      TwoPasses(s[1..]);
      ReplaceAllAppend(first, ReplaceAll(s[1..], '\\', "\\\\"), '\"', "\\\"");
      assert ReplaceAll(first, '\"', "\\\"") == EscapedChar(s[0]) by {
        if s[0] == '\\' {
          assert first[1..] == "\\" && first[1..][1..] == "";
          assert ReplaceAll(first[1..], '\"', "\\\"") == "\\";
        } else {
          assert first[1..] == "";
        }
      }
    }
  }

  lemma {:induction false} ReadEscaped(s: string, rest: string)
    ensures ReadBody(EscapedAll(s) + "\"" + rest) == Literal(s, rest)
  {
    var tail := EscapedAll(s) + "\"" + rest;
    if s == [] {
      assert tail == "\"" + rest;
    } else {
      ReadEscaped(s[1..], rest);
      var head := EscapedChar(s[0]);
      assert tail == head + (EscapedAll(s[1..]) + "\"" + rest);
      assert tail[|head|..] == EscapedAll(s[1..]) + "\"" + rest;
      assert [s[0]] + s[1..] == s;
      assert tail[..|head|] == head;
      assert tail[0] == head[0];
      if |head| == 2 { assert tail[1] == head[1]; }
    }
  }

  /** AppleScript reads the literal back as exactly the argument and goes on right behind it. */
  lemma AppleScriptRoundTrip(s: string, rest: string)
    ensures ReadLiteral(AppleScriptString(s) + rest) == Literal(s, rest)
  {
    TwoPasses(s);
    ReadEscaped(s, rest);
    assert (AppleScriptString(s) + rest)[1..] == EscapedAll(s) + "\"" + rest;
  }

  // ---- a quoted word ----

  lemma {:induction false} QuotedBody(st: Lexer, s: string)
    requires st.mode == Single && st.word.Reading? && st.op == ""
    ensures Run(st, ReplaceAll(s, '\'', "'\\''")) == st.(word := Grown(st.word, s, false))
    decreases |s|
  {
    if s != [] {
      var rest := ReplaceAll(s[1..], '\'', "'\\''");
      var one := st.(word := Grown(st.word, [s[0]], false));
      if s[0] == '\'' {
        FourCharacters(st);
        RunAppend(st, "'\\''", rest);
      } else {
        assert ([s[0]] + rest)[1..] == rest;
      }
      QuotedBody(one, s[1..]);
      assert st.word.text + s == (st.word.text + [s[0]]) + s[1..];
    }
  }

  /** Close, escape a quote, reopen. */
  lemma FourCharacters(st: Lexer)
    requires st.mode == Single && st.word.Reading? && st.op == ""
    ensures Run(st, "'\\''") == st.(word := Grown(st.word, "'", false))
  {
    RunFourOf(st, "'\\''");
    FourSteps(st);
  }

  lemma FourSteps(st: Lexer)
    requires st.mode == Single && st.word.Reading? && st.op == ""
    ensures Step(Step(Step(Step(st, '\''), '\\'), '\''), '\'') == st.(word := Grown(st.word, "'", false))
  {
    var closed := st.(mode := Plain);
    var escaped := closed.(word := Grown(st.word, "'", false));
    assert Step(st, '\'') == closed;
    assert Step(closed, '\\') == closed.(mode := Escaped);
    assert Step(closed.(mode := Escaped), '\'') == escaped;
    assert escaped.word.text + "" == escaped.word.text;
  }

  lemma RunFourOf(st: Lexer, s: string)
    requires |s| == 4
    ensures Run(st, s) == Step(Step(Step(Step(st, s[0]), s[1]), s[2]), s[3])
  {
    assert s == [s[0]] + [s[1]] + [s[2]] + [s[3]];
    RunFour(st, s[0], s[1], s[2], s[3]);
  }

  lemma RunFour(st: Lexer, a: char, b: char, c: char, d: char)
    ensures Run(st, [a] + [b] + [c] + [d]) == Step(Step(Step(Step(st, a), b), c), d)
  {
    RunAppend(st, [a] + [b] + [c], [d]);
    RunAppend(st, [a] + [b], [c]);
    RunAppend(st, [a], [b]);
    RunOne(st, a);
    RunOne(Step(st, a), b);
    RunOne(Step(Step(st, a), b), c);
    RunOne(Step(Step(Step(st, a), b), c), d);
  }

  lemma RunOne(st: Lexer, c: char)
    ensures Run(st, [c]) == Step(st, c)
  {
    assert [c][1..] == [];
  }

  /** From any point outside quotes the shell reads `Sh(s)` as the characters of `s`, whatever
      they are, joined to the word being read and closed to expansion. */
  lemma ShellQuote(st: Lexer, s: string)
    requires st.mode == Plain
    ensures Run(st, Sh(s)) == EndOp(st).(word := Grown(EndOp(st).word, s, false))
  {
    var body := ReplaceAll(s, '\'', "'\\''");
    var entered := Step(st, '\'');
    assert entered == Open(EndOp(st), Single);
    assert Sh(s)[0] == '\'' && Sh(s)[1..] == body + "'";
    RunAppend(entered, body, "'");
    QuotedBody(entered, s);
    var inside := entered.(word := Grown(entered.word, s, false));
    assert Run(inside, "'") == Step(inside, '\'');
    var word := EndOp(st).word;
    if word.Reading? { assert word.text + "" + s == word.text + s; }
    assert inside.word == Grown(word, s, false);
  }

  lemma WordRoundTrip(s: string)
    ensures Tokens(Sh(s)) == Bytes.Some([Word(s, false)])
  {
    ShellQuote(START, s);
    assert [] + [Word(s, false)] == [Word(s, false)];
  }

  // ---- fixed text around quoted arguments ----

  datatype Part = Part(fixed: string, arg: string)

  function Command(parts: seq<Part>, last: string): string {
    if parts == [] then last else parts[0].fixed + (Sh(parts[0].arg) + Command(parts[1..], last))
  }

  predicate EndsBlank(s: string) { s != "" && s[|s| - 1] == ' ' && AllInert(s) }
  predicate StartsBlank(s: string) { s != "" && s[0] == ' ' && AllInert(s) }

  /** Arguments stand between blanks, in text the shell reads without quoting. */
  predicate Spaced(parts: seq<Part>, last: string) {
    && (forall i :: 0 <= i < |parts| ==> EndsBlank(parts[i].fixed))
    && (forall i :: 1 <= i < |parts| ==> StartsBlank(parts[i].fixed))
    && StartsBlank(last)
  }

  function FixedTokens(s: string): seq<Token> {
    var st := Run(START, s);
    EndWord(EndOp(st)).tokens
  }

  /** The fixed parts' own tokens with each argument as one word between them. */
  function Expected(parts: seq<Part>, last: string): seq<Token> {
    if parts == [] then FixedTokens(last)
    else FixedTokens(parts[0].fixed) + ([Word(parts[0].arg, false)] + Expected(parts[1..], last))
  }

  lemma BlankEndsWord(st: Lexer, s: string)
    requires st.mode == Plain && st.op == "" && s != "" && s[0] == ' '
    ensures Run(st, s) == Run(EndWord(st), s)
  {
  }

  lemma FixedRun(before: seq<Token>, s: string)
    requires EndsBlank(s)
    ensures Run(After(before, START), s) == After(before, START).(tokens := before + FixedTokens(s))
  {
    var body := s[..|s| - 1];
    assert s == body + " ";
    InertThenBlank(body);
    RunAfter(before, START, s);
  }

  lemma {:induction false} CommandRun(before: seq<Token>, parts: seq<Part>, last: string)
    requires Spaced(parts, last)
    ensures var st := Run(After(before, START), Command(parts, last));
      st.mode == Plain && EndWord(EndOp(st)).tokens == before + Expected(parts, last)
    decreases |parts|
  {
    if parts == [] {
      InertStaysPlain(START, last);
      RunAfter(before, START, last);
      EndsAfter(before, Run(START, last));
      EndsAfter(before, EndOp(Run(START, last)));
    } else {
      var fixed, arg, rest := parts[0].fixed, parts[0].arg, Command(parts[1..], last);
      var tokens := before + FixedTokens(fixed);
      var st := After(before, START).(tokens := tokens);
      RunAppend(After(before, START), fixed, Sh(arg) + rest);
      FixedRun(before, fixed);
      RunAppend(st, Sh(arg), rest);
      ShellQuote(st, arg);
      var read := st.(word := Reading(arg, false));
      RestStartsBlank(parts, last);
      BlankEndsWord(read, rest);
      assert EndWord(read) == After(tokens + [Word(arg, false)], START);
      CommandRun(tokens + [Word(arg, false)], parts[1..], last);
      Reassociate(before, FixedTokens(fixed), [Word(arg, false)], Expected(parts[1..], last));
    }
  }

  lemma RestStartsBlank(parts: seq<Part>, last: string)
    requires Spaced(parts, last) && parts != []
    ensures Spaced(parts[1..], last)
    ensures var rest := Command(parts[1..], last); rest != "" && rest[0] == ' '
  {
    if |parts| > 1 { assert StartsBlank(parts[1].fixed); }
  }

  lemma Reassociate<T>(a: seq<T>, b: seq<T>, c: seq<T>, d: seq<T>)
    ensures ((a + b) + c) + d == a + (b + (c + d))
  {
  }

  /** The shell finds the same commands whatever the arguments hold, each argument being one
      word exactly as it was given. */
  lemma CommandTokens(parts: seq<Part>, last: string)
    requires Spaced(parts, last)
    ensures Tokens(Command(parts, last)) == Bytes.Some(Expected(parts, last))
  {
    assert After([], START) == START;
    CommandRun([], parts, last);
    assert [] + Expected(parts, last) == Expected(parts, last);
  }
}
