/**
 The shell command of claudeCodeShellCommand, read back by the quoting and token rules of
 the POSIX.1-2017 Shell Command Language (sections 2.2 and 2.3).
 */
module ShellQuoting {
  import opened Prelude
  import opened Text

  /** The bare-safe charset of shellQuoteIfNeeded. */
  predicate BareSafe(c: char) {
    'a' <= c <= 'z' || 'A' <= c <= 'Z' || '0' <= c <= '9' ||
    c in {'_', '-', '.', '/', ':', '@', '+', '%', ',', '='}
  }

  predicate AllBareSafe(s: string) {
    forall i :: 0 <= i < |s| ==> BareSafe(s[i])
  }

  function ShellQuote(s: string): string {
    "'" + ReplaceAll(s, '\'', "'\\''") + "'"
  }

  function ShellQuoteIfNeeded(s: string): string {
    if s == "" then "''" else if AllBareSafe(s) then s else ShellQuote(s)
  }

  const BINARY := "claude"

  function CommandParts(args: seq<string>): (r: seq<string>)
    ensures |r| == |args|
  {
    if args == [] then [] else [ShellQuoteIfNeeded(args[0])] + CommandParts(args[1..])
  }

  function ShellCommand(args: seq<string>): string {
    Join([BINARY] + CommandParts(args), ' ')
  }

  /** claudeCodeAddArgs: the argv of `claude mcp add-json`, without the binary. */
  function AddArgs(scope: string, name: string, entryJSON: string): seq<string> {
    ["mcp", "add-json", "--scope", scope, name, entryJSON]
  }

  lemma {:induction false} PartsAppend(args: seq<string>, arg: string)
    ensures CommandParts(args + [arg]) == CommandParts(args) + [ShellQuoteIfNeeded(arg)]
  {
    if args == [] {
      assert args + [arg] == [arg];
    } else {
      assert (args + [arg])[1..] == args[1..] + [arg];
      PartsAppend(args[1..], arg);
    }
  }

  /** claudeCodeShellCommand: the loop over the arguments builds exactly this command. */
  method ClaudeCodeShellCommand(scope: string, name: string, entryJSON: string) returns (command: string)
    ensures command == ShellCommand(AddArgs(scope, name, entryJSON))
    ensures Words(command, Gap) == Some(["claude", "mcp", "add-json", "--scope", scope, name, entryJSON])
  {
    var args := AddArgs(scope, name, entryJSON);
    var parts := [BINARY];
    var i := 0;
    while i < |args|
      invariant 0 <= i <= |args| && parts == [BINARY] + CommandParts(args[..i])
    {
      PartsAppend(args[..i], args[i]);
      assert args[..i] + [args[i]] == args[..i + 1];
      parts := parts + [ShellQuoteIfNeeded(args[i])];
      i := i + 1;
    }
    assert args[..|args|] == args;
    command := Join(parts, ' ');
    CommandReads(scope, name, entryJSON);
  }

  /* ---- the shell's side ---- */

  /** Between words, inside a word, or inside single quotes in a word. */
  datatype Lexer = Gap | Word(text: string) | Quoted(text: string)

  predicate Blank(c: char) {
    c == ' ' || c == '\t'
  }

  /**
   Characters without any meaning of their own outside quotes. `=` and `%` belong here only
   because they never stand in command position: the first word is a fixed name.
   */
  predicate Plain(c: char) {
    c !in {'|', '&', ';', '<', '>', '(', ')', '$', '`', '\\', '"', '\'', ' ', '\t', '\n', '*', '?', '[', '#', '~'}
  }

  function Cons(word: string, rest: Option<seq<string>>): Option<seq<string>> {
    if rest.Some? then Some([word] + rest.value) else None
  }

  /**
   The words of a simple command, or None as soon as a character would be an operator, an
   expansion, a comment, a pattern or an unterminated quote instead of itself.
   */
  function Words(s: string, l: Lexer): Option<seq<string>>
    decreases |s|, if l.Gap? then 1 else 0
  {
    match l
    case Gap =>
      if s == "" then Some([]) else if Blank(s[0]) then Words(s[1..], Gap) else Words(s, Word(""))
    case Word(text) =>
      if s == "" then Some([text])
      else if Blank(s[0]) then Cons(text, Words(s[1..], Gap))
      else if s[0] == '\'' then Words(s[1..], Quoted(text))
      else if s[0] == '\\' then
        if |s| < 2 then None
        else if s[1] == '\n' then Words(s[2..], Word(text))
        else Words(s[2..], Word(text + [s[1]]))
      else if Plain(s[0]) then Words(s[1..], Word(text + [s[0]]))
      else None
    case Quoted(text) =>
      if s == "" then None
      else if s[0] == '\'' then Words(s[1..], Word(text))
      else Words(s[1..], Quoted(text + [s[0]]))
  }

  lemma {:induction false} BareReads(s: string, rest: string, text: string)
    requires AllBareSafe(s)
    ensures Words(s + rest, Word(text)) == Words(rest, Word(text + s))
  {
    if s == "" {
      assert s + rest == rest && text + s == text;
    } else {
      assert BareSafe(s[0]);
      assert (s + rest)[1..] == s[1..] + rest;
      BareReads(s[1..], rest, text + [s[0]]);
      assert text + [s[0]] + s[1..] == text + s;
    }
  }

  lemma EscapedQuoteReads(rest: string, text: string)
    ensures Words("'\\''" + rest, Quoted(text)) == Words(rest, Quoted(text + ['\'']))
  {
    var s := "'\\''" + rest;
    assert s[1..] == "\\'" + ("'" + rest);
    assert s[1..][2..] == "'" + rest;
    assert ("'" + rest)[1..] == rest;
    assert Words(s, Quoted(text)) == Words(s[1..], Word(text));
    assert Words(s[1..], Word(text)) == Words("'" + rest, Word(text + ['\'']));
  }

  lemma {:induction false} QuotedReads(s: string, rest: string, text: string)
    ensures Words(ReplaceAll(s, '\'', "'\\''") + ("'" + rest), Quoted(text)) == Words(rest, Word(text + s))
  {
    var esc := ReplaceAll(s, '\'', "'\\''");
    var tail := "'" + rest;
    if s == "" {
      assert esc + tail == tail && tail[1..] == rest && text + s == text;
    } else {
      var more := ReplaceAll(s[1..], '\'', "'\\''");
      QuotedReads(s[1..], rest, text + [s[0]]);
      assert text + [s[0]] + s[1..] == text + s;
      if s[0] == '\'' {
        assert esc + tail == "'\\''" + (more + tail);
        EscapedQuoteReads(more + tail, text);
      } else {
        assert (esc + tail)[1..] == more + tail;
      }
    }
  }

  /** A quoted argument is read as one word holding exactly that argument. */
  lemma QuotedArgumentReads(arg: string, rest: string)
    ensures Words(ShellQuoteIfNeeded(arg) + rest, Gap) == Words(rest, Word(arg))
  {
    var q := ShellQuoteIfNeeded(arg);
    if arg != "" && AllBareSafe(arg) {
      assert BareSafe(arg[0]) && (q + rest)[0] == arg[0];
      BareReads(arg, rest, "");
      assert "" + arg == arg;
    } else {
      assert q == ShellQuote(arg);
      var inner := ReplaceAll(arg, '\'', "'\\''");
      assert (q + rest)[1..] == inner + ("'" + rest);
      assert Words(q + rest, Gap) == Words(q + rest, Word(""));
      assert Words(q + rest, Word("")) == Words(inner + ("'" + rest), Quoted(""));
      QuotedReads(arg, rest, "");
      assert "" + arg == arg;
    }
  }

  lemma {:induction false} JoinedReads(args: seq<string>)
    requires |args| > 0
    ensures Words(Join(CommandParts(args), ' '), Gap) == Some(args)
  {
    var parts := CommandParts(args);
    if |args| == 1 {
      assert parts == [ShellQuoteIfNeeded(args[0])];
      QuotedArgumentReads(args[0], "");
      assert parts[0] + "" == parts[0];
      assert args == [args[0]];
    } else {
      var tail := Join(parts[1..], ' ');
      JoinedReads(args[1..]);
      assert parts[1..] == CommandParts(args[1..]);
      assert parts[0] + [' '] + tail == parts[0] + ([' '] + tail);
      QuotedArgumentReads(args[0], [' '] + tail);
      assert ([' '] + tail)[1..] == tail;
      assert [args[0]] + args[1..] == args;
    }
  }

  /** The shell reads the command back as the binary and exactly the arguments, whatever they hold. */
  lemma ShellReadsBackTheArguments(args: seq<string>)
    ensures Words(ShellCommand(args), Gap) == Some([BINARY] + args)
  {
    assert AllBareSafe(BINARY);
    var argv := [BINARY] + args;
    assert argv[1..] == args;
    assert CommandParts(argv) == [BINARY] + CommandParts(args);
    JoinedReads(argv);
  }

  /** An argument is left bare exactly when it is not empty and holds letters, digits and `_-./:@+%,=` only. */
  lemma BareIffPlain(arg: string)
    ensures ShellQuoteIfNeeded(arg) == arg <==>
              arg != "" && forall i :: 0 <= i < |arg| ==>
                'a' <= arg[i] <= 'z' || 'A' <= arg[i] <= 'Z' || '0' <= arg[i] <= '9' || arg[i] in "_-./:@+%,="
  {
    assert |ShellQuote(arg)| >= 2;
    if ShellQuote(arg) == arg {
      QuotedIsLonger(arg);
      assert false;
    }
    forall i | 0 <= i < |arg| ensures arg[i] in "_-./:@+%,=" <==>
      arg[i] in {'_', '-', '.', '/', ':', '@', '+', '%', ',', '='}
    {
      PunctuationIs(arg[i]);
    }
  }

  lemma PunctuationIs(c: char)
    ensures c in "_-./:@+%,=" <==> c in {'_', '-', '.', '/', ':', '@', '+', '%', ',', '='}
  {
    var s := "_-./:@+%,=";
    assert s[0] == '_' && s[1] == '-' && s[2] == '.' && s[3] == '/' && s[4] == ':';
    assert s[5] == '@' && s[6] == '+' && s[7] == '%' && s[8] == ',' && s[9] == '=';
  }

  lemma {:induction false} QuotedIsLonger(s: string)
    ensures |ReplaceAll(s, '\'', "'\\''")| >= |s|
  {
    if s != "" {
      QuotedIsLonger(s[1..]);
    }
  }

  lemma CommandReads(scope: string, name: string, entryJSON: string)
    ensures Words(ShellCommand(AddArgs(scope, name, entryJSON)), Gap)
         == Some(["claude", "mcp", "add-json", "--scope", scope, name, entryJSON])
  {
    var args := AddArgs(scope, name, entryJSON);
    ShellReadsBackTheArguments(args);
    assert [BINARY] + args == ["claude", "mcp", "add-json", "--scope", scope, name, entryJSON];
  }

  /** So two commands are the same text only for the same arguments. */
  lemma ShellCommandIsInjective(a: seq<string>, b: seq<string>)
    requires ShellCommand(a) == ShellCommand(b)
    ensures a == b
  {
    ShellReadsBackTheArguments(a);
    ShellReadsBackTheArguments(b);
    assert ([BINARY] + a)[1..] == a && ([BINARY] + b)[1..] == b;
  }
}
