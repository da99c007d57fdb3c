/** A shell's token recognition: sections 2.2 and 2.3 of the POSIX Shell Command Language, with
    quotes removed from the words. */
module Shell {
  import Bytes

  // A word remembers whether any character of it was left open to expansion.
  datatype Token = Word(text: string, expands: bool) | Operator(text: string)

  datatype Mode = Plain | Escaped | Single | Double | DoubleEscaped | Comment

  datatype Pending = NoWord | Reading(text: string, expands: bool)

  // `word` and `op` are the token being read, if any; `tokens` those complete.
  datatype Lexer = Lexer(mode: Mode, word: Pending, op: string, tokens: seq<Token>)

  const START := Lexer(Plain, NoWord, "", [])

  predicate IsBlank(c: char) { c == ' ' || c == '\t' }
  predicate IsOperatorChar(c: char) { c in {'&', '|', ';', '<', '>', '(', ')'} }
  predicate IsExpansion(c: char) { c in {'$', '`', '*', '?', '[', '~'} }

  /** The operators of two characters. */
  predicate Extends(op: string, c: char) {
    || (op == "&" && c == '&') || (op == "|" && c == '|') || (op == ";" && c == ';')
    || (op == "<" && c in {'<', '&', '>'}) || (op == ">" && c in {'>', '&', '|'})
  }

  /** The current word with more text, starting one if need be. */
  function Grown(word: Pending, more: string, active: bool): Pending {
    match word
    case NoWord => Reading(more, active)
    case Reading(text, expands) => Reading(text + more, expands || active)
  }

  function Take(st: Lexer, c: char, active: bool := false): Lexer {
    st.(word := Grown(st.word, [c], active))
  }

  function Open(st: Lexer, mode: Mode): Lexer { st.(word := Grown(st.word, "", false), mode := mode) }

  function EndOp(st: Lexer): Lexer {
    if st.op == "" then st else st.(op := "", tokens := st.tokens + [Operator(st.op)])
  }

  function EndWord(st: Lexer): Lexer {
    match st.word
    case NoWord => st
    case Reading(text, expands) => st.(word := NoWord, tokens := st.tokens + [Word(text, expands)])
  }

  /** An unquoted character when no operator is pending. */
  function Fresh(st: Lexer, c: char): Lexer {
    if c == '\'' then Open(st, Single)
    else if c == '\"' then Open(st, Double)
    else if c == '\\' then st.(mode := Escaped)
    else if IsBlank(c) then EndWord(st)
    else if c == '\n' then EndOp(EndWord(st).(op := "\n"))
    else if IsOperatorChar(c) then EndWord(st).(op := [c])
    else if c == '#' && st.word.NoWord? then st.(mode := Comment)
    else if IsExpansion(c) then Take(st, c, true)
    else Take(st, c)
  }

  /** A character while `mode` is one of the quoting modes. */
  function Quoted(st: Lexer, c: char): Lexer {
    match st.mode
    case Escaped => if c == '\n' then st.(mode := Plain) else Take(st, c).(mode := Plain)
    case Single => if c == '\'' then st.(mode := Plain) else Take(st, c)
    case Double =>
      if c == '\"' then st.(mode := Plain)
      else if c == '\\' then st.(mode := DoubleEscaped)
      else Take(st, c, c == '$' || c == '`')
    case DoubleEscaped =>
      if c == '$' || c == '`' || c == '\"' || c == '\\' then Take(st, c).(mode := Double)
      else if c == '\n' then st.(mode := Double)
      else Take(Take(st, '\\'), c).(mode := Double)
    case _ => st
  }

  function Step(st: Lexer, c: char): Lexer {
    if st.mode == Plain then if Extends(st.op, c) then st.(op := st.op + [c]) else Fresh(EndOp(st), c)
    else if st.mode == Comment then if c == '\n' then Fresh(st.(mode := Plain), c) else st
    else Quoted(st, c)
  }

  function Run(st: Lexer, s: string): Lexer
    decreases |s|
  {
    if s == [] then st else Run(Step(st, s[0]), s[1..])
  }

  /** All the tokens of a text; None when a quote is left open. */
  function Tokens(s: string): Bytes.Option<seq<Token>> {
    var st := Run(START, s);
    if st.mode == Plain || st.mode == Comment then Bytes.Some(EndWord(EndOp(st)).tokens) else Bytes.None
  }

  lemma {:induction false} RunAppend(st: Lexer, a: string, b: string)
    ensures Run(st, a + b) == Run(Run(st, a), b)
    decreases |a|
  {
    if a == [] {
      assert a + b == b;
    } else {
      assert (a + b)[1..] == a[1..] + b;
      RunAppend(Step(st, a[0]), a[1..], b);
    }
  }

  // ---- what has been read does not influence what follows ----

  function After(before: seq<Token>, st: Lexer): Lexer { st.(tokens := before + st.tokens) }

  lemma EndsAfter(before: seq<Token>, st: Lexer)
    ensures EndOp(After(before, st)) == After(before, EndOp(st))
    ensures EndWord(After(before, st)) == After(before, EndWord(st))
  {
    assert (before + st.tokens) + [Operator(st.op)] == before + (st.tokens + [Operator(st.op)]);
    if st.word.Reading? {
      var word := Word(st.word.text, st.word.expands);
      assert (before + st.tokens) + [word] == before + (st.tokens + [word]);
    }
  }

  lemma FreshAfter(before: seq<Token>, st: Lexer, c: char)
    ensures Fresh(After(before, st), c) == After(before, Fresh(st, c))
  {
    EndsAfter(before, st);
    EndsAfter(before, EndWord(st).(op := "\n"));
  }

  lemma QuotedAfter(before: seq<Token>, st: Lexer, c: char)
    ensures Quoted(After(before, st), c) == After(before, Quoted(st, c))
  {
  }

  lemma StepAfter(before: seq<Token>, st: Lexer, c: char)
    ensures Step(After(before, st), c) == After(before, Step(st, c))
  {
    if st.mode == Plain {
      EndsAfter(before, st);
      FreshAfter(before, EndOp(st), c);
    } else if st.mode == Comment {
      FreshAfter(before, st.(mode := Plain), c);
    } else {
      QuotedAfter(before, st, c);
    }
  }

  lemma {:induction false} RunAfter(before: seq<Token>, st: Lexer, s: string)
    ensures Run(After(before, st), s) == After(before, Run(st, s))
    decreases |s|
  {
    if s != [] {
      StepAfter(before, st, s[0]);
      RunAfter(before, Step(st, s[0]), s[1..]);
    }
  }

  // ---- text without quotes ----

  /** A character that is neither a quote nor anything but itself, a separator or an operator. */
  predicate Inert(c: char) {
    c !in {'\'', '\"', '\\', '#', '\n'} && !IsExpansion(c)
  }

  predicate AllInert(s: string) { forall i :: 0 <= i < |s| ==> Inert(s[i]) }

  lemma {:induction false} InertStaysPlain(st: Lexer, s: string)
    requires st.mode == Plain && AllInert(s)
    ensures Run(st, s).mode == Plain
    decreases |s|
  {
    if s != [] {
      assert Inert(s[0]);
      InertStaysPlain(Step(st, s[0]), s[1..]);
    }
  }

  /** Nothing is being read. */
  predicate Between(st: Lexer) { st.mode == Plain && st.word.NoWord? && st.op == "" }

  lemma InertThenBlank(s: string)
    requires AllInert(s)
    ensures Between(Run(START, s + " "))
  {
    InertStaysPlain(START, s);
    RunAppend(START, s, " ");
    assert Run(Run(START, s), " ") == Step(Run(START, s), ' ');
  }
}
