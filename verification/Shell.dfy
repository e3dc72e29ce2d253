/** Quoting of shell arguments, against the quoting rules of the POSIX shell (2.2.1, 2.2.2, 2.3). */
module Shell {

  function EscapeBody(arg: string): string {
    if arg == "" then ""
    else (if arg[0] == '\'' then "'\\''" else [arg[0]]) + EscapeBody(arg[1..])
  }

  function Escaped(arg: string): string {
    "'" + EscapeBody(arg) + "'"
  }

  method EscapeShellArgument(arg: string) returns (escaped: string)
    ensures escaped == Escaped(arg)
  {
    escaped := "'";
    for k := 0 to |arg|
      invariant escaped + EscapeBody(arg[k..]) == "'" + EscapeBody(arg)
    {
      ghost var before, rest := escaped, EscapeBody(arg[k + 1..]);
      assert arg[k..][1..] == arg[k + 1..];
      if arg[k] == '\'' {
        escaped := escaped + "'\\''";
        assert before + ("'\\''" + rest) == escaped + rest;
      } else {
        escaped := escaped + [arg[k]];
        assert before + ([arg[k]] + rest) == escaped + rest;
      }
    }
    assert escaped + "" == escaped;
    escaped := escaped + "'";
  }

  // ---------------------------------------------------------------- the tokenizer

  datatype Words = Words(words: seq<string>) | NotPlain

  /** Between words, in a word, or in single quotes within a word. */
  datatype Mode = Between | InWord(word: string) | InQuotes(word: string)

  /** Characters that mean something to the shell when they are not quoted (2.2). */
  predicate Special(c: char) {
    c in "|&;<>()$`\"*?[#~=%\n"
  }

  predicate Blank(c: char) {
    c == ' ' || c == '\t'
  }

  function Cons(word: string, rest: Words): Words {
    if rest.Words? then Words([word] + rest.words) else NotPlain
  }

  /**
    The words of a piece of shell input that uses nothing but single quotes, backslashes and plain
    characters; `NotPlain` when anything else stands unquoted, or a quote is left open.
   */
  function Scan(mode: Mode, s: string): Words
    decreases |s|
  {
    match mode
    case InQuotes(w) =>
      if s == "" then NotPlain
      else if s[0] == '\'' then Scan(InWord(w), s[1..])
      else Scan(InQuotes(w + [s[0]]), s[1..])
    case Between => if s == "" then Words([]) else Unquoted("", false, s)
    case InWord(w) => if s == "" then Words([w]) else Unquoted(w, true, s)
  }

  /** One unquoted character; `begun` when a word is under way. */
  function Unquoted(w: string, begun: bool, s: string): Words
    requires s != "" && (!begun ==> w == "")
    decreases |s|, 0
  {
    if Blank(s[0]) then if begun then Cons(w, Scan(Between, s[1..])) else Scan(Between, s[1..])
    else if s[0] == '\'' then Scan(InQuotes(w), s[1..])
    else if s[0] == '\\' then
      if |s| == 1 then NotPlain
      else if s[1] == '\n' then Scan(if begun then InWord(w) else Between, s[2..])
      else Scan(InWord(w + [s[1]]), s[2..])
    else if Special(s[0]) then NotPlain
    else Scan(InWord(w + [s[0]]), s[1..])
  }

  // --------------------------------------------------------- single steps of the shell

  lemma ClosesQuote(w: string, t: string)
    ensures Scan(InQuotes(w), "'" + t) == Scan(InWord(w), t)
  {
    assert ("'" + t)[1..] == t;
  }

  lemma ReadsQuoted(w: string, c: char, t: string)
    requires c != '\''
    ensures Scan(InQuotes(w), [c] + t) == Scan(InQuotes(w + [c]), t)
  {
    assert ([c] + t)[1..] == t;
  }

  lemma OpensQuote(w: string, t: string)
    ensures Scan(InWord(w), "'" + t) == Scan(InQuotes(w), t)
    ensures Scan(Between, "'" + t) == Scan(InQuotes(""), t)
  {
    assert ("'" + t)[1..] == t;
  }

  lemma ReadsEscaped(w: string, t: string)
    ensures Scan(InWord(w), "\\'" + t) == Scan(InWord(w + "'"), t)
  {
    assert ("\\'" + t)[2..] == t;
  }

  lemma EndsWord(w: string, t: string)
    ensures Scan(InWord(w), "") == Words([w])
    ensures Scan(InWord(w), " " + t) == Cons(w, Scan(Between, t))
  {
    assert (" " + t)[1..] == t;
  }

  // ------------------------------------------------------------------------ round trip

  /** From inside the quotes, the rest of an escaped argument adds exactly the argument to the word. */
  lemma {:induction false} QuotedArgument(w: string, arg: string, rest: string)
    ensures Scan(InQuotes(w), EscapeBody(arg) + "'" + rest) == Scan(InWord(w + arg), rest)
    decreases |arg|
  {
    hide Scan;
    if arg == "" {
      ClosesQuote(w, rest);
      assert EscapeBody(arg) + "'" + rest == "'" + rest && w + arg == w;
    } else {
      var more := EscapeBody(arg[1..]) + "'" + rest;
      QuotedArgument(w + [arg[0]], arg[1..], rest);
      assert w + [arg[0]] + arg[1..] == w + arg;
      if arg[0] == '\'' {
        LeaveAndReturn(w, more);
        assert EscapeBody(arg) + "'" + rest == "'" + ("\\'" + ("'" + more));
      } else {
        ReadsQuoted(w, arg[0], more);
        assert EscapeBody(arg) + "'" + rest == [arg[0]] + more;
      }
    }
  }

  /** Leaving the quotes for one escaped quote. */
  lemma LeaveAndReturn(w: string, more: string)
    ensures Scan(InQuotes(w), "'" + ("\\'" + ("'" + more))) == Scan(InQuotes(w + "'"), more)
  {
    hide Scan;
    ClosesQuote(w, "\\'" + ("'" + more));
    ReadsEscaped(w, "'" + more);
    OpensQuote(w + "'", more);
  }

  lemma EscapedWord(arg: string, rest: string)
    ensures Scan(Between, Escaped(arg) + rest) == Scan(InWord(arg), rest)
  {
    hide Scan, EscapeBody;
    OpensQuote("", EscapeBody(arg) + "'" + rest);
    assert Escaped(arg) + rest == "'" + (EscapeBody(arg) + "'" + rest);
    QuotedArgument("", arg, rest);
    assert "" + arg == arg;
  }

  /** A shell command line of escaped arguments, separated by blanks. */
  function CommandLine(args: seq<string>): string {
    if args == [] then ""
    else if |args| == 1 then Escaped(args[0])
    else Escaped(args[0]) + " " + CommandLine(args[1..])
  }

  /** The shell reads escaped arguments back as exactly those arguments, whatever they contain. */
  lemma {:induction false} ShellReadsBack(args: seq<string>)
    ensures Scan(Between, CommandLine(args)) == Words(args)
    decreases |args|
  {
    hide Scan, Escaped;
    if args == [] {
      NoWords();
    } else if |args| == 1 {
      EscapedWord(args[0], "");
      EndsWord(args[0], "");
      assert Escaped(args[0]) + "" == Escaped(args[0]) && [args[0]] == args;
    } else {
      ShellReadsBack(args[1..]);
      OneMoreArgument(args[0], CommandLine(args[1..]), args[1..]);
      assert [args[0]] + args[1..] == args;
    }
  }

  lemma NoWords()
    ensures Scan(Between, "") == Words([])
  {
  }

  lemma OneMoreArgument(arg: string, rest: string, words: seq<string>)
    requires Scan(Between, rest) == Words(words)
    ensures Scan(Between, Escaped(arg) + " " + rest) == Words([arg] + words)
  {
    hide Scan, Escaped;
    EscapedWord(arg, " " + rest);
    EndsWord(arg, rest);
    assert Escaped(arg) + " " + rest == Escaped(arg) + (" " + rest);
  }
}
