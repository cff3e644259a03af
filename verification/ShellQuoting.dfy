/** `rann_agent/core/security.py`. Quoting an argument for the shell, against the shell's own
    rules: sections 2.2.1 (escape character), 2.2.2 (single-quotes), 2.2.3 (double-quotes) and 2.3
    (token recognition) of the Shell Command Language in POSIX.1-2017. */
module ShellQuoting {
  import opened Prelude

  /** `"'" + arg.replace("'", "'\\''") + "'"` */
  function Escape(arg: string): string {
    "'" + Replaced(arg) + "'"
  }

  /** Every single quote becomes: end the quotes, an escaped quote, begin quotes again. */
  function Replaced(arg: string): string {
    if arg == [] then []
    else (if arg[0] == '\'' then "'\\''" else [arg[0]]) + Replaced(arg[1..])
  }

  // ----- the shell's token recognition -----

  datatype Token = Word(text: string) | Operator(text: string)

  /** Control and redirection operators, and the newline. */
  const OPERATORS: set<string> := {
    "&", "|", ";", "<", ">", "(", ")", "\n",
    "&&", "||", ";;", "<<", ">>", "<&", ">&", "<>", ">|", "<<-"
  }

  /** The token being read, if one has begun. */
  datatype Part = Nothing | InWord(text: string) | InOperator(text: string)

  datatype Mode = Plain | AfterBackslash | Quoted | DoubleQuoted | AfterBackslashInDouble | Comment

  /** The tokens delimited so far, the one being read and how characters are read; or that something
      outside these rules was met: an expansion or the text of a here-document. */
  datatype Lexer = Reading(done: seq<Token>, part: Part, mode: Mode) | Outside

  const START := Reading([], Nothing, Plain)

  predicate IsBlank(c: char) {
    c == ' ' || c == '\t'
  }

  predicate Expands(c: char) {
    c == '$' || c == '`'
  }

  function Letters(part: Part): string {
    if part.InWord? then part.text else []
  }

  /** The tokens when the present one ends. */
  function Delimited(done: seq<Token>, part: Part): seq<Token> {
    match part
    case Nothing => done
    case InWord(text) => done + [Word(text)]
    case InOperator(text) => done + [Operator(text)]
  }

  /** An operator ends where something else than an operator character begins. */
  function Settled(done: seq<Token>, part: Part): seq<Token> {
    if part.InOperator? then Delimited(done, part) else done
  }

  predicate AwaitsHereDocument(done: seq<Token>) {
    Operator("<<") in done || Operator("<<-") in done
  }

  /** A character that is not quoted. */
  function LexPlain(done: seq<Token>, part: Part, c: char): Lexer {
    if part.InOperator? && part.text + [c] in OPERATORS then Reading(done, InOperator(part.text + [c]), Plain)
    else if c == '\\' then Reading(done, part, AfterBackslash)
    else if c == '\'' then Reading(Settled(done, part), InWord(Letters(part)), Quoted)
    else if c == '"' then Reading(Settled(done, part), InWord(Letters(part)), DoubleQuoted)
    else if Expands(c) || (c == '\n' && AwaitsHereDocument(Delimited(done, part))) then Outside
    else if [c] in OPERATORS then Reading(Delimited(done, part), InOperator([c]), Plain)
    else if IsBlank(c) then Reading(Delimited(done, part), Nothing, Plain)
    else if c == '#' && !part.InWord? then Reading(Settled(done, part), Nothing, Comment)
    else Reading(Settled(done, part), InWord(Letters(part) + [c]), Plain)
  }

  /** One character. */
  function Lex(l: Lexer, c: char): Lexer {
    if l.Outside? then l
    else match l.mode
      case Plain => LexPlain(l.done, l.part, c)
      case AfterBackslash =>
        // A backslash and a newline are a line continuation and vanish.
        if c == '\n' then l.(mode := Plain)
        else Reading(Settled(l.done, l.part), InWord(Letters(l.part) + [c]), Plain)
      case Quoted =>
        if c == '\'' then l.(mode := Plain) else l.(part := InWord(Letters(l.part) + [c]))
      case DoubleQuoted =>
        if c == '"' then l.(mode := Plain)
        else if c == '\\' then l.(mode := AfterBackslashInDouble)
        else if Expands(c) then Outside
        else l.(part := InWord(Letters(l.part) + [c]))
      case AfterBackslashInDouble =>
        if c == '\n' then l.(mode := DoubleQuoted)
        else if Expands(c) || c == '"' || c == '\\' then Reading(l.done, InWord(Letters(l.part) + [c]), DoubleQuoted)
        else Reading(l.done, InWord(Letters(l.part) + ['\\', c]), DoubleQuoted)
      case Comment =>
        if c == '\n' then LexPlain(l.done, l.part, c) else l
  }

  function LexAll(l: Lexer, s: string): Lexer
    decreases s
  {
    if s == [] then l else LexAll(Lex(l, s[0]), s[1..])
  }

  /** The tokens of a command line, if it lies within these rules and ends with no quoting and no
      comment left open. */
  function Finish(l: Lexer): Option<seq<Token>> {
    if l.Reading? && l.mode.Plain? then Some(Delimited(l.done, l.part)) else None
  }

  function Tokenize(s: string): Option<seq<Token>> {
    Finish(LexAll(START, s))
  }

  // ----- round trips -----

  lemma {:induction false} LexAppend(l: Lexer, a: string, b: string)
    ensures LexAll(l, a + b) == LexAll(LexAll(l, a), b)
    decreases a
  {
    if a == [] {
      assert a + b == b;
    } else {
      assert (a + b)[1..] == a[1..] + b;
      LexAppend(Lex(l, a[0]), a[1..], b);
    }
  }

  lemma LexOne(l: Lexer, c: char, s: string)
    ensures LexAll(l, [c] + s) == LexAll(Lex(l, c), s)
  {
    assert ([c] + s)[1..] == s;
  }

  /** Inside quotes, an argument's replacement adds exactly the argument to the word. */
  lemma {:induction false} LexReplaced(done: seq<Token>, word: string, arg: string)
    ensures LexAll(Reading(done, InWord(word), Quoted), Replaced(arg)) == Reading(done, InWord(word + arg), Quoted)
    decreases arg
  {
    var l := Reading(done, InWord(word), Quoted);
    if arg == [] {
      assert word + arg == word;
    } else {
      var c := arg[0];
      var first := if c == '\'' then "'\\''" else [c];
      LexAppend(l, first, Replaced(arg[1..]));
      if c == '\'' {
        LexQuote(done, word);
      } else {
        LexOne(l, c, []);
        assert [c] + [] == [c];
      }
      assert LexAll(l, first) == Reading(done, InWord(word + [c]), Quoted);
      LexReplaced(done, word + [c], arg[1..]);
      assert word + [c] + arg[1..] == word + arg;
    }
  }

  /** The four characters that stand for a single quote. */
  lemma LexQuote(done: seq<Token>, word: string)
    ensures LexAll(Reading(done, InWord(word), Quoted), "'\\''") == Reading(done, InWord(word + "'"), Quoted)
  {
    var l := Reading(done, InWord(word), Quoted);
    var l1 := Reading(done, InWord(word), Plain);
    var l2 := Reading(done, InWord(word), AfterBackslash);
    var l3 := Reading(done, InWord(word + "'"), Plain);
    var l4 := Reading(done, InWord(word + "'"), Quoted);
    assert "'\\''" == ['\''] + "\\''" && "\\''" == ['\\'] + "''" && "''" == ['\''] + "'" && "'" == ['\''] + "";
    LexOne(l, '\'', "\\''");
    LexOne(l1, '\\', "''");
    LexOne(l2, '\'', "'");
    LexOne(l3, '\'', "");
    assert Lex(l2, '\'') == l3 && Lex(l3, '\'') == l4;
  }

  /** No operator continues with a quote. */
  lemma QuoteSettles(text: string)
    ensures text + ['\''] !in OPERATORS
  {
    var t := text + ['\''];
    assert t[|t| - 1] == '\'';
  }

  /** Wherever it stands unquoted, an escaped argument adds exactly its text to the word being read,
      or begins a word with it. */
  lemma LexEscape(done: seq<Token>, part: Part, arg: string)
    ensures LexAll(Reading(done, part, Plain), Escape(arg)) ==
            Reading(Settled(done, part), InWord(Letters(part) + arg), Plain)
  {
    var l := Reading(done, part, Plain);
    var open := Reading(Settled(done, part), InWord(Letters(part)), Quoted);
    if part.InOperator? { QuoteSettles(part.text); }
    assert Escape(arg) == ['\''] + (Replaced(arg) + "'");
    LexOne(l, '\'', Replaced(arg) + "'");
    LexAppend(open, Replaced(arg), "'");
    LexReplaced(Settled(done, part), Letters(part), arg);
    LexOne(Reading(Settled(done, part), InWord(Letters(part) + arg), Quoted), '\'', "");
    assert ['\''] + "" == "'";
  }

  /** The shell reads an escaped argument as exactly one word, the argument. */
  lemma EscapeRoundTrip(arg: string)
    ensures Tokenize(Escape(arg)) == Some([Word(arg)])
  {
    LexEscape([], Nothing, arg);
    assert [] + arg == arg && [] + [Word(arg)] == [Word(arg)];
  }

  /** A blank ends the token being read. */
  lemma LexSpace(done: seq<Token>, part: Part)
    ensures Lex(Reading(done, part, Plain), ' ') == Reading(Delimited(done, part), Nothing, Plain)
  {
    if part.InOperator? {
      var t := part.text + [' '];
      assert t[|t| - 1] == ' ' && t !in OPERATORS;
    }
  }

  /** Appended to any complete command line after a space, pipes, lists, redirections, quotes and all,
      an escaped argument adds that one word and disturbs nothing before it. */
  lemma EscapeInCommand(command: string, arg: string)
    requires Tokenize(command).Some?
    ensures Tokenize(command + " " + Escape(arg)) == Some(Tokenize(command).value + [Word(arg)])
  {
    var l := LexAll(START, command);
    LexAppend(START, command, " " + Escape(arg));
    assert command + " " + Escape(arg) == command + (" " + Escape(arg));
    LexOne(l, ' ', Escape(arg));
    LexSpace(l.done, l.part);
    LexEscape(Tokenize(command).value, Nothing, arg);
    assert [] + arg == arg;
  }

  // ----- in the middle of a command line -----

  /** The same reading after some more tokens. */
  function After(before: seq<Token>, l: Lexer): Lexer {
    if l.Outside? then l else l.(done := before + l.done)
  }

  lemma LexAfter(before: seq<Token>, l: Lexer, c: char)
    requires !AwaitsHereDocument(before)
    ensures Lex(After(before, l), c) == After(before, Lex(l, c))
  {
    if l.Reading? {
      DelimitedAfter(before, l.done, l.part);
    }
  }

  lemma DelimitedAfter(before: seq<Token>, done: seq<Token>, part: Part)
    ensures Delimited(before + done, part) == before + Delimited(done, part)
    ensures Settled(before + done, part) == before + Settled(done, part)
  {
    if part.InWord? {
      assert before + (done + [Word(part.text)]) == before + done + [Word(part.text)];
    } else if part.InOperator? {
      assert before + (done + [Operator(part.text)]) == before + done + [Operator(part.text)];
    }
  }

  lemma {:induction false} LexAllAfter(before: seq<Token>, l: Lexer, s: string)
    requires !AwaitsHereDocument(before)
    ensures LexAll(After(before, l), s) == After(before, LexAll(l, s))
    decreases s
  {
    if s != [] {
      LexAfter(before, l, s[0]);
      LexAllAfter(before, Lex(l, s[0]), s[1..]);
    }
  }

  /** Between two complete pieces of command line an escaped argument is that one word, and both are
      read as they are alone (a here-document opened by the first would swallow later lines). */
  lemma EscapeBetween(command: string, arg: string, rest: string)
    requires Tokenize(command).Some? && !AwaitsHereDocument(Tokenize(command).value) && Tokenize(rest).Some?
    ensures Tokenize(command + " " + Escape(arg) + " " + rest) ==
            Some(Tokenize(command).value + [Word(arg)] + Tokenize(rest).value)
  {
    var front := command + " " + Escape(arg);
    var before := Tokenize(command).value + [Word(arg)];
    EscapeInCommand(command, arg);
    var l := LexAll(START, front);
    assert front + " " + rest == front + (" " + rest);
    LexAppend(START, front, " " + rest);
    LexOne(l, ' ', rest);
    LexSpace(l.done, l.part);
    assert After(before, START) == Reading(before, Nothing, Plain);
    LexAllAfter(before, START, rest);
    var end := LexAll(START, rest);
    DelimitedAfter(before, end.done, end.part);
  }

  // ----- lists of arguments -----

  /** `" ".join(map(escape, args))` */
  function EscapeAll(args: seq<string>): string {
    if args == [] then []
    else if |args| == 1 then Escape(args[0])
    else EscapeAll(args[..|args| - 1]) + " " + Escape(args[|args| - 1])
  }

  function Words(args: seq<string>): seq<Token> {
    if args == [] then [] else Words(args[..|args| - 1]) + [Word(args[|args| - 1])]
  }

  /** Joining escaped arguments with spaces reads back as the argument list, empty arguments and all. */
  lemma {:induction false} JoinRoundTrip(args: seq<string>)
    ensures Tokenize(EscapeAll(args)) == Some(Words(args))
    decreases |args|
  {
    if |args| == 1 {
      EscapeRoundTrip(args[0]);
      assert Words(args[..0]) == [] && [] + [Word(args[0])] == [Word(args[0])];
    } else if args != [] {
      JoinRoundTrip(args[..|args| - 1]);
      EscapeInCommand(EscapeAll(args[..|args| - 1]), args[|args| - 1]);
    }
  }

  /** Different arguments are escaped differently. */
  lemma EscapeInjective(a: string, b: string)
    requires Escape(a) == Escape(b)
    ensures a == b
  {
    EscapeRoundTrip(a);
    EscapeRoundTrip(b);
    assert [Word(a)][0] == [Word(b)][0];
  }
}
