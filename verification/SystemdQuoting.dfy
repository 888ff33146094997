/**
 The ExecStart value of renderSystemdExecStart, read back by the quoting, escape and
 specifier rules of systemd.syntax(7) and systemd.service(5).
 */
module SystemdQuoting {
  import opened Prelude
  import opened Text

  /** iniEscape: backslashes first, then the specifier character. */
  function IniEscape(s: string): string {
    ReplaceAll(ReplaceAll(s, '\\', "\\\\"), '%', "%%")
  }

  function RenderToken(token: string): string {
    var esc := IniEscape(token);
    if ' ' in esc || '\t' in esc || '"' in esc then "\"" + ReplaceAll(esc, '"', "\\\"") + "\"" else esc
  }

  function Rendered(tokens: seq<string>): (r: seq<string>)
    ensures |r| == |tokens|
  {
    if tokens == [] then [] else [RenderToken(tokens[0])] + Rendered(tokens[1..])
  }

  function ExecStart(tokens: seq<string>): string
    requires |tokens| > 0
  {
    Join(Rendered(tokens), ' ')
  }

  lemma {:induction false} RenderedAppend(tokens: seq<string>, token: string)
    ensures Rendered(tokens + [token]) == Rendered(tokens) + [RenderToken(token)]
  {
    if tokens == [] {
      assert tokens + [token] == [token];
    } else {
      assert (tokens + [token])[1..] == tokens[1..] + [token];
      RenderedAppend(tokens[1..], token);
    }
  }

  /** renderSystemdExecStart: the loop over the tokens builds exactly this value. */
  method RenderSystemdExecStart(binary: string, args: seq<string>) returns (value: string)
    ensures value == ExecStart([binary] + args)
  {
    var tokens := [binary] + args;
    var quoted: seq<string> := [];
    var i := 0;
    while i < |tokens|
      invariant 0 <= i <= |tokens| && quoted == Rendered(tokens[..i])
    {
      RenderedAppend(tokens[..i], tokens[i]);
      assert tokens[..i] + [tokens[i]] == tokens[..i + 1];
      var esc := IniEscape(tokens[i]);
      if ' ' in esc || '\t' in esc || '"' in esc {
        esc := "\"" + ReplaceAll(esc, '"', "\\\"") + "\"";
      }
      quoted := quoted + [esc];
      i := i + 1;
    }
    assert tokens[..|tokens|] == tokens;
    value := Join(quoted, ' ');
  }

  /* ---- systemd's side ---- */

  predicate Space(c: char) {
    c == ' ' || c == '\t' || c == '\n' || c == '\r'
  }

  /** Between words, in an unquoted word, or in a word wrapped in the quote `q`. */
  datatype Lexer = Gap | Word(text: string) | Quoted(q: char, text: string)

  function Cons(word: string, rest: Option<seq<string>>): Option<seq<string>> {
    if rest.Some? then Some([word] + rest.value) else None
  }

  /** A bare `;` separates commands instead of being an argument. */
  function Bare(word: string, rest: Option<seq<string>>): Option<seq<string>> {
    if word == ";" then None else Cons(word, rest)
  }

  /**
   The items of the line, or None for a second command, an unterminated quote, text after a
   closing quote, or an escape other than `\\`, `\"` and `\'`. A quote opens only at the
   start of an item.
   */
  function Words(s: string, l: Lexer): Option<seq<string>>
    decreases |s|, if l.Gap? then 1 else 0
  {
    match l
    case Gap =>
      if s == "" then Some([])
      else if Space(s[0]) then Words(s[1..], Gap)
      else if s[0] == '"' || s[0] == '\'' then Words(s[1..], Quoted(s[0], ""))
      else Words(s, Word(""))
    case Word(text) =>
      if s == "" then Bare(text, Some([]))
      else if Space(s[0]) then Bare(text, Words(s[1..], Gap))
      else if s[0] == '\\' then
        if |s| >= 2 && s[1] in {'\\', '"', '\''} then Words(s[2..], Word(text + [s[1]])) else None
      else Words(s[1..], Word(text + [s[0]]))
    case Quoted(q, text) =>
      if s == "" then None
      else if s[0] == q then
        if |s| == 1 then Some([text]) else if Space(s[1]) then Cons(text, Words(s[1..], Gap)) else None
      else if s[0] == '\\' then
        if |s| >= 2 && s[1] in {'\\', '"', '\''} then Words(s[2..], Quoted(q, text + [s[1]])) else None
      else Words(s[1..], Quoted(q, text + [s[0]]))
  }

  /** `%%` is a percent sign; any other specifier and any `$` depends on the host. */
  function Expand(word: string): Option<string> {
    if word == "" then Some("")
    else if word[0] == '$' then None
    else if word[0] == '%' then
      if |word| >= 2 && word[1] == '%' then
        var r := Expand(word[2..]); if r.Some? then Some("%" + r.value) else None
      else None
    else var r := Expand(word[1..]); if r.Some? then Some([word[0]] + r.value) else None
  }

  function ExpandAll(words: seq<string>): Option<seq<string>> {
    if words == [] then Some([])
    else
      var w := Expand(words[0]);
      if w.Some? then Cons(w.value, ExpandAll(words[1..])) else None
  }

  /** The argv systemd starts for an ExecStart value, or None when it is not these literal items. */
  function Argv(value: string): Option<seq<string>> {
    var words := Words(value, Gap);
    if words.Some? then ExpandAll(words.value) else None
  }

  predicate NeedsQuotes(token: string) {
    ' ' in token || '\t' in token || '"' in token
  }

  /** Tokens the rendering carries through: the single-line ones systemd reads as themselves. */
  predicate TokenOk(token: string) {
    && token != "" && '$' !in token && token != ";"
    && (token[0] == '\'' ==> NeedsQuotes(token))
  }

  predicate OneLine(token: string) {
    '\n' !in token && '\r' !in token
  }

  /* ---- what the escapes do, character by character ---- */

  function Double(s: string): string {
    ReplaceAll(s, '%', "%%")
  }

  lemma {:induction false} ReplaceAllAppend(a: string, b: string, c: char, text: string)
    ensures ReplaceAll(a + b, c, text) == ReplaceAll(a, c, text) + ReplaceAll(b, c, text)
  {
    if a == "" {
      assert a + b == b;
    } else {
      assert (a + b)[1..] == a[1..] + b;
      ReplaceAllAppend(a[1..], b, c, text);
    }
  }

  function EscapeChar(c: char): string {
    if c == '\\' then "\\\\" else if c == '%' then "%%" else [c]
  }

  lemma IniEscapeCons(s: string)
    requires s != ""
    ensures IniEscape(s) == EscapeChar(s[0]) + IniEscape(s[1..])
  {
    var head := if s[0] == '\\' then "\\\\" else [s[0]];
    var tail := ReplaceAll(s[1..], '\\', "\\\\");
    ReplaceAllAppend(head, tail, '%', "%%");
    assert head[1..] == (if s[0] == '\\' then "\\" else "");
    assert ReplaceAll(head, '%', "%%") == EscapeChar(s[0]) by {
      if s[0] == '\\' {
        assert "\\\\"[1..] == "\\" && "\\"[1..] == "";
      } else {
        assert [s[0]][1..] == "";
      }
    }
  }

  lemma {:induction false} EscapeKeepsOthers(token: string, c: char)
    requires c != '\\' && c != '%'
    ensures c in IniEscape(token) <==> c in token
  {
    if token != "" {
      IniEscapeCons(token);
      EscapeKeepsOthers(token[1..], c);
      assert token == [token[0]] + token[1..];
    }
  }

  lemma {:induction false} ExpandDoubles(token: string)
    ensures Expand(Double(token)) == if '$' in token then None else Some(token)
  {
    if token != "" {
      ExpandDoubles(token[1..]);
      assert token == [token[0]] + token[1..];
      if token[0] == '%' {
        assert Double(token)[2..] == Double(token[1..]);
      } else {
        assert Double(token)[1..] == Double(token[1..]);
      }
    }
  }

  lemma DoubleCons(s: string)
    requires s != ""
    ensures Double(s) == (if s[0] == '%' then "%%" else [s[0]]) + Double(s[1..])
  {}

  /** An unquoted token is read up to its end, with only its percent signs still doubled. */
  lemma {:induction false} UnquotedReads(token: string, rest: string, text: string)
    requires !NeedsQuotes(token) && OneLine(token)
    ensures Words(IniEscape(token) + rest, Word(text)) == Words(rest, Word(text + Double(token)))
  {
    if token == "" {
      assert IniEscape(token) + rest == rest && text + Double(token) == text;
    } else {
      var more := IniEscape(token[1..]) + rest;
      IniEscapeCons(token);
      DoubleCons(token);
      var step := if token[0] == '%' then "%%" else [token[0]];
      assert text + step + Double(token[1..]) == text + Double(token);
      UnquotedReads(token[1..], rest, text + step);
      var s := IniEscape(token) + rest;
      assert token[0] in token;
      if token[0] == '\\' {
        assert s[1] == '\\' && s[2..] == more;
      } else if token[0] == '%' {
        assert s[1..] == "%" + more && ("%" + more)[1..] == more;
        assert text + ['%'] + ['%'] == text + "%%";
      } else {
        assert s[1..] == more;
      }
    }
  }

  function QuoteChars(esc: string): string {
    ReplaceAll(esc, '"', "\\\"")
  }

  lemma QuoteCharsCons(token: string)
    requires token != ""
    ensures QuoteChars(IniEscape(token)) ==
            (if token[0] == '"' then "\\\"" else EscapeChar(token[0])) + QuoteChars(IniEscape(token[1..]))
  {
    IniEscapeCons(token);
    var head := EscapeChar(token[0]);
    ReplaceAllAppend(head, IniEscape(token[1..]), '"', "\\\"");
    assert head[1..] == (if token[0] == '\\' then "\\" else if token[0] == '%' then "%" else "");
    assert "\\"[1..] == "" && "%"[1..] == "";
  }

  function QuoteChar(c: char): string {
    if c == '"' then "\\\"" else EscapeChar(c)
  }

  function DoubleChar(c: char): string {
    if c == '%' then "%%" else [c]
  }

  lemma QuotedCharReads(c: char, more: string, text: string)
    ensures Words(QuoteChar(c) + more, Quoted('"', text)) == Words(more, Quoted('"', text + DoubleChar(c)))
  {
    var s := QuoteChar(c) + more;
    if c == '%' {
      assert s[1..] == "%" + more && ("%" + more)[1..] == more;
      assert text + ['%'] + ['%'] == text + "%%";
    } else if c == '\\' || c == '"' {
      assert s[0] == '\\' && s[1] == c && s[2..] == more;
    } else {
      assert s[0] == c && s[1..] == more;
    }
  }

  lemma QuotedStep(token: string, rest: string, text: string)
    requires token != ""
    ensures Words(QuoteChars(IniEscape(token)) + rest, Quoted('"', text))
         == Words(QuoteChars(IniEscape(token[1..])) + rest, Quoted('"', text + DoubleChar(token[0])))
  {
    var more := QuoteChars(IniEscape(token[1..]));
    QuoteCharsCons(token);
    Regroup(QuoteChar(token[0]), more, rest);
    QuotedCharReads(token[0], more + rest, text);
  }

  lemma Regroup(a: string, b: string, c: string)
    ensures (a + b) + c == a + (b + c)
  {}

  lemma DoubleAppends(token: string, text: string)
    requires token != ""
    ensures text + DoubleChar(token[0]) + Double(token[1..]) == text + Double(token)
  {
    DoubleCons(token);
  }

  lemma {:induction false} QuotedReads(token: string, rest: string, text: string)
    ensures Words(QuoteChars(IniEscape(token)) + rest, Quoted('"', text))
         == Words(rest, Quoted('"', text + Double(token)))
  {
    if token == "" {
      assert QuoteChars(IniEscape(token)) + rest == rest && text + Double(token) == text;
    } else {
      QuotedStep(token, rest, text);
      QuotedReads(token[1..], rest, text + DoubleChar(token[0]));
      DoubleAppends(token, text);
    }
  }

  lemma NeedsQuotesAfterEscape(token: string)
    ensures NeedsQuotes(IniEscape(token)) == NeedsQuotes(token)
  {
    EscapeKeepsOthers(token, ' ');
    EscapeKeepsOthers(token, '\t');
    EscapeKeepsOthers(token, '"');
  }

  lemma DoubleFirst(token: string)
    requires token != ""
    ensures Double(token) != "" && Double(token)[0] == token[0]
    ensures Double(token) == ";" <==> token == ";"
  {
    DoubleCons(token);
    if |token| > 1 {
      DoubleCons(token[1..]);
    }
  }

  lemma ClosingQuoteReads(rest: string, text: string)
    requires rest == "" || rest[0] == ' '
    ensures Words("\"" + rest, Quoted('"', text)) == Cons(text, Words(rest, Gap))
  {
    assert ("\"" + rest)[1..] == rest;
    assert [text] + [] == [text];
  }

  lemma QuotedTokenReads(token: string, rest: string)
    requires NeedsQuotes(token) && (rest == "" || rest[0] == ' ')
    ensures Words(RenderToken(token) + rest, Gap) == Cons(Double(token), Words(rest, Gap))
  {
    NeedsQuotesAfterEscape(token);
    var inner := QuoteChars(IniEscape(token)) + ("\"" + rest);
    assert RenderToken(token) + rest == "\"" + inner;
    assert ("\"" + inner)[1..] == inner;
    assert Words("\"" + inner, Gap) == Words(inner, Quoted('"', ""));
    QuotedReads(token, "\"" + rest, "");
    assert "" + Double(token) == Double(token);
    ClosingQuoteReads(rest, Double(token));
  }

  lemma BareTokenReads(token: string, rest: string)
    requires token != "" && token != ";" && token[0] != '\'' && !NeedsQuotes(token) && OneLine(token)
    requires rest == "" || rest[0] == ' '
    ensures Words(RenderToken(token) + rest, Gap) == Cons(Double(token), Words(rest, Gap))
  {
    NeedsQuotesAfterEscape(token);
    DoubleFirst(token);
    IniEscapeCons(token);
    var s := RenderToken(token) + rest;
    assert token[0] in token;
    assert s[0] == token[0];
    assert Words(s, Gap) == Words(s, Word(""));
    UnquotedReads(token, rest, "");
    assert "" + Double(token) == Double(token);
    assert Words(rest, Word(Double(token))) == Bare(Double(token), Words(rest, Gap));
  }

  /** Tokens whose rendering is read as one item. */
  predicate OneItem(token: string) {
    token != "" && token != ";" && (token[0] == '\'' ==> NeedsQuotes(token))
  }

  /** Such a token at the end of the line, or before a space, is read as that item. */
  lemma TokenReads(token: string, rest: string)
    requires OneItem(token) && OneLine(token)
    requires rest == "" || rest[0] == ' '
    ensures Words(RenderToken(token) + rest, Gap) == Cons(Double(token), Words(rest, Gap))
  {
    if NeedsQuotes(token) {
      QuotedTokenReads(token, rest);
    } else {
      BareTokenReads(token, rest);
    }
  }

  predicate AllOk(tokens: seq<string>) {
    forall i :: 0 <= i < |tokens| ==> TokenOk(tokens[i])
  }

  predicate AllOneLine(tokens: seq<string>) {
    forall i :: 0 <= i < |tokens| ==> OneLine(tokens[i])
  }

  /* ---- what a line gives, token by token ---- */

  /** What follows a token in the value. */
  function After(tokens: seq<string>): string {
    if tokens == [] then "" else [' '] + ExecStart(tokens)
  }

  /** The argv of a list of tokens, which may be empty. */
  function Items(tokens: seq<string>): Option<seq<string>> {
    if tokens == [] then Some([]) else Argv(ExecStart(tokens))
  }

  lemma HeadAndRest(tokens: seq<string>)
    requires tokens != []
    ensures ExecStart(tokens) == RenderToken(tokens[0]) + After(tokens[1..])
    ensures Argv(After(tokens[1..])) == Items(tokens[1..])
  {
    var rest := tokens[1..];
    if rest == [] {
      assert RenderToken(tokens[0]) + "" == RenderToken(tokens[0]);
    } else {
      assert Rendered(tokens)[1..] == Rendered(rest);
      assert ([' '] + ExecStart(rest))[1..] == ExecStart(rest);
    }
  }

  lemma ExpandHead(word: string, rest: Option<seq<string>>)
    requires rest.Some?
    ensures ExpandAll([word] + rest.value) ==
            if Expand(word).Some? then Cons(Expand(word).value, ExpandAll(rest.value)) else None
  {
    assert ([word] + rest.value)[1..] == rest.value;
  }

  /** A token that is one item is carried through, unless it names a `$`. */
  lemma ItemHead(token: string, rest: string)
    requires OneItem(token) && OneLine(token) && (rest == "" || rest[0] == ' ')
    ensures Argv(RenderToken(token) + rest) == if '$' in token then None else Cons(token, Argv(rest))
  {
    TokenReads(token, rest);
    ExpandDoubles(token);
    var words := Words(rest, Gap);
    if words.Some? {
      ExpandHead(Double(token), words);
    }
  }

  lemma SemicolonHead(rest: string)
    requires rest == "" || rest[0] == ' '
    ensures Argv(RenderToken(";") + rest) == None
  {
    IniEscapeCons(";");
    assert IniEscape("") == "" && ";"[1..] == "";
    assert RenderToken(";") == ";";
    var s := ";" + rest;
    assert s[1..] == rest;
    assert Words(s, Gap) == Words(s, Word(""));
    assert Words(s, Word("")) == Words(rest, Word(";"));
  }

  /** In a quoted word, what was read so far stays the start of the item. */
  lemma {:induction false} QuotedKeepsStart(s: string, text: string)
    ensures var r := Words(s, Quoted('\'', text)); r.Some? ==> r.value != [] && text <= r.value[0]
    decreases |s|
  {
    if s != "" && s[0] != '\'' {
      if s[0] == '\\' {
        if |s| >= 2 {
          QuotedKeepsStart(s[2..], text + [s[1]]);
        }
      } else {
        QuotedKeepsStart(s[1..], text + [s[0]]);
      }
    }
  }

  lemma ExpandKeepsFirst(word: string)
    ensures Expand(word).Some? ==> (word == "" <==> Expand(word).value == "")
    ensures Expand(word).Some? && word != "" ==> Expand(word).value[0] == word[0]
  {}

  lemma {:induction false} EscapeAddsNoSpace(token: string)
    requires !NeedsQuotes(token) && OneLine(token)
    ensures forall i :: 0 <= i < |IniEscape(token)| ==> !Space(IniEscape(token)[i])
  {
    EscapeKeepsOthers(token, ' ');
    EscapeKeepsOthers(token, '\t');
    EscapeKeepsOthers(token, '\n');
    EscapeKeepsOthers(token, '\r');
  }

  /** A word opened by a quote starts with the first thing after that quote, or is empty. */
  lemma OpenedWord(inner: string, rest: string)
    requires rest == "" || rest[0] == ' '
    requires inner != "" ==> inner[0] != '\'' && (inner[0] == '\\' ==> |inner| > 1 && inner[1] == '\\')
    ensures var r := Words(inner + rest, Quoted('\'', ""));
            r.Some? ==> r.value != [] && r.value[0] != "" && r.value[0][0] != '\''
  {
    var s := inner + rest;
    if s != "" {
      if s[0] == '\\' {
        QuotedKeepsStart(s[2..], "" + [s[1]]);
      } else {
        QuotedKeepsStart(s[1..], "" + [s[0]]);
      }
    }
  }

  lemma OpenedItem(word: string, words: seq<string>)
    requires words != [] && words[0] == word && word != "" && word[0] != '\''
    ensures var r := ExpandAll(words); r.Some? ==> r.value != [] && r.value[0] != "" && r.value[0][0] != '\''
  {
    ExpandKeepsFirst(word);
  }

  /** The text of an unprotected leading quote: the quote, and then what the rest of the token escapes to. */
  lemma QuoteOpens(token: string, rest: string)
    requires token != "" && token[0] == '\'' && !NeedsQuotes(token) && OneLine(token)
    ensures Words(RenderToken(token) + rest, Gap) == Words(IniEscape(token[1..]) + rest, Quoted('\'', ""))
  {
    BareRender(token);
    IniEscapeCons(token);
    var inner := IniEscape(token[1..]);
    QuoteThen(inner + rest);
    Regroup("'", inner, rest);
  }

  lemma BareRender(token: string)
    requires !NeedsQuotes(token)
    ensures RenderToken(token) == IniEscape(token)
  {
    NeedsQuotesAfterEscape(token);
  }

  lemma QuoteThen(s: string)
    ensures Words("'" + s, Gap) == Words(s, Quoted('\'', ""))
  {
    assert ("'" + s)[1..] == s;
  }

  lemma EscapeStarts(token: string)
    requires token != ""
    ensures IniEscape(token) != ""
    ensures token[0] == '\\' ==> IniEscape(token)[0] == '\\' && |IniEscape(token)| > 1 && IniEscape(token)[1] == '\\'
    ensures token[0] != '\\' ==> IniEscape(token)[0] == token[0]
  {
    IniEscapeCons(token);
  }

  /** Two quotes are an empty item; any other token with an unprotected leading quote loses that quote, or the line. */
  lemma QuoteHead(token: string, rest: string)
    requires token != "" && token[0] == '\'' && !NeedsQuotes(token) && OneLine(token)
    requires rest == "" || rest[0] == ' '
    ensures var r := Argv(RenderToken(token) + rest);
            && (token == "''" ==> r == Cons("", Argv(rest)))
            && (token != "''" && r.Some? ==> r.value != [] && r.value[0] != "" && r.value[0][0] != '\'')
  {
    QuoteOpens(token, rest);
    var inner := IniEscape(token[1..]);
    if token == "''" {
      EmptyQuotes(rest);
    } else if |token| > 1 && token[1] == '\'' {
      ClosedEarly(token, rest);
    } else {
      if |token| > 1 {
        EscapeStarts(token[1..]);
      } else {
        assert inner == "";
      }
      OpenedWord(inner, rest);
      var words := Words(inner + rest, Quoted('\'', ""));
      if words.Some? {
        OpenedItem(words.value[0], words.value);
      }
    }
  }

  lemma EmptyQuotes(rest: string)
    requires rest == "" || rest[0] == ' '
    requires Words(RenderToken("''") + rest, Gap) == Words(IniEscape("''"[1..]) + rest, Quoted('\'', ""))
    ensures Argv(RenderToken("''") + rest) == Cons("", Argv(rest))
  {
    assert "''"[1..] == "'";
    IniEscapeCons("'");
    assert "'"[1..] == "" && IniEscape("") == "";
    var s := "'" + rest;
    assert s[1..] == rest;
    var words := Words(rest, Gap);
    assert [""] + [] == [""];
    if words.Some? {
      ExpandHead("", words);
    }
  }

  /** A quote that closes before the end of its token takes the line down. */
  lemma ClosedEarly(token: string, rest: string)
    requires |token| > 2 && token[0] == '\'' && token[1] == '\'' && !NeedsQuotes(token) && OneLine(token)
    ensures Words(IniEscape(token[1..]) + rest, Quoted('\'', "")) == None
  {
    var inner := IniEscape(token[1..]);
    IniEscapeCons(token[1..]);
    assert token[1..][1..] == token[2..];
    EscapeStarts(token[2..]);
    EscapeAddsNoSpace(token);
    IniEscapeCons(token);
    var s := inner + rest;
    assert s[0] == '\'' && s[1] == IniEscape(token[2..])[0];
    assert IniEscape(token)[2] == s[1];
  }

  /** Whatever a token renders to, an empty item or a pair of quotes can only come from a pair of quotes. */
  lemma PhantomHead(token: string, rest: string)
    requires token != "" && OneLine(token) && (rest == "" || rest[0] == ' ')
    ensures var r := Argv(RenderToken(token) + rest);
            r.Some? && r.value != [] && r.value[0] in {"", "''"} ==>
              r.value[0] == "" && token == "''" && Argv(rest) == Some(r.value[1..])
  {
    var r := Argv(RenderToken(token) + rest);
    if token == ";" {
      SemicolonHead(rest);
    } else if OneItem(token) {
      ItemHead(token, rest);
      assert token != "''";
    } else {
      QuoteHead(token, rest);
      if token == "''" && r.Some? {
        assert ([""] + Argv(rest).value)[1..] == Argv(rest).value;
      }
    }
  }

  predicate Phantoms(pre: seq<string>) {
    pre != [] && forall i :: 0 <= i < |pre| ==> pre[i] in {"", "''"}
  }

  lemma OneMorePhantom(pre: seq<string>, t: string)
    requires Phantoms(pre) && t in {"", "''"}
    ensures Phantoms(pre + [t]) && Phantoms(pre[1..] + [t])
  {}

  lemma EmptyHead(tokens: seq<string>)
    requires tokens != [] && tokens[0] == ""
    ensures Items(tokens) == Items(tokens[1..])
  {
    HeadAndRest(tokens);
    assert RenderToken("") == "";
    assert "" + After(tokens[1..]) == After(tokens[1..]);
  }

  lemma Shift(pre: seq<string>, tokens: seq<string>)
    requires pre != [] && tokens != []
    ensures (pre + tokens)[0] == pre[0] && (pre + tokens)[1..] == (pre[1..] + [tokens[0]]) + tokens[1..]
  {}

  /** A phantom in front is used up by a pair of quotes, which then owes one itself. */
  lemma PhantomMovesOn(pre: seq<string>, tokens: seq<string>, items: seq<string>)
    requires pre != [] && pre[0] in {"", "''"} && tokens != [] && tokens[0] != "" && AllOneLine(tokens)
    requires Items(tokens) == Some(items) && items != [] && items[0] == pre[0]
    ensures tokens[0] == "''" && Items(tokens[1..]) == Some(items[1..])
  {
    HeadAndRest(tokens);
    assert OneLine(tokens[0]);
    PhantomHead(tokens[0], After(tokens[1..]));
  }

  /** No line gives its tokens behind items that none of them can be. */
  lemma {:induction false} NoPhantom(pre: seq<string>, tokens: seq<string>)
    requires Phantoms(pre) && AllOneLine(tokens)
    ensures Items(tokens) != Some(pre + tokens)
    decreases |tokens|
  {
    if tokens == [] {
      assert pre + tokens == pre;
    } else if tokens[0] == "" {
      EmptyHead(tokens);
      assert pre + tokens == (pre + [""]) + tokens[1..];
      OneMorePhantom(pre, "");
      NoPhantom(pre + [""], tokens[1..]);
    } else if Items(tokens) == Some(pre + tokens) {
      Shift(pre, tokens);
      PhantomMovesOn(pre, tokens, pre + tokens);
      OneMorePhantom(pre, tokens[0]);
      NoPhantom(pre[1..] + [tokens[0]], tokens[1..]);
      assert false;
    }
  }

  /** The first token that is not carried through is not read back, whatever follows it. */
  lemma BadHeadIsLost(tokens: seq<string>)
    requires tokens != [] && AllOneLine(tokens) && !TokenOk(tokens[0])
    ensures Items(tokens) != Some(tokens)
  {
    var t, ts := tokens[0], tokens[1..];
    HeadAndRest(tokens);
    assert OneLine(t) && tokens == [t] + ts;
    if t == "" {
      EmptyHead(tokens);
      NoPhantom([""], ts);
    } else if t == ";" {
      SemicolonHead(After(ts));
    } else if OneItem(t) {
      ItemHead(t, After(ts));
    } else {
      QuoteHead(t, After(ts));
    }
  }

  lemma GoodHeadIsRead(tokens: seq<string>)
    requires tokens != [] && AllOneLine(tokens) && TokenOk(tokens[0])
    ensures Items(tokens) == Some(tokens) <==> Items(tokens[1..]) == Some(tokens[1..])
  {
    var t, ts := tokens[0], tokens[1..];
    HeadAndRest(tokens);
    assert OneLine(t) && tokens == [t] + ts;
    ItemHead(t, After(ts));
    if Items(ts).Some? {
      assert ([t] + Items(ts).value)[1..] == Items(ts).value;
    }
  }

  lemma {:induction false} ItemsReadBackIff(tokens: seq<string>)
    requires AllOneLine(tokens)
    ensures Items(tokens) == Some(tokens) <==> AllOk(tokens)
  {
    if tokens != [] {
      if TokenOk(tokens[0]) {
        ItemsReadBackIff(tokens[1..]);
        GoodHeadIsRead(tokens);
        assert tokens == [tokens[0]] + tokens[1..];
      } else {
        BadHeadIsLost(tokens);
      }
    }
  }

  /**
   systemd starts exactly the rendered tokens if and only if each of them is nonempty, names
   no `$`, is not a lone `;`, and starts with no single quote that the rendering leaves bare.
   */
  lemma TokensAreReadBackIff(tokens: seq<string>)
    requires |tokens| > 0 && AllOneLine(tokens)
    ensures Argv(ExecStart(tokens)) == Some(tokens) <==>
            forall i :: 0 <= i < |tokens| ==>
              && tokens[i] != "" && '$' !in tokens[i] && tokens[i] != ";"
              && (tokens[i][0] == '\'' ==> ' ' in tokens[i] || '\t' in tokens[i] || '"' in tokens[i])
  {
    ItemsReadBackIff(tokens);
  }

  /**
   A token is wrapped in quotes exactly when it holds a blank, a tab or a quote, and is
   written as it is exactly when it holds none of these, no backslash and no percent sign.
   */
  lemma RenderedTokenIs(token: string)
    ensures ' ' in token || '\t' in token || '"' in token ==>
              RenderToken(token) == "\"" + QuoteChars(IniEscape(token)) + "\""
    ensures RenderToken(token) == token <==>
              ' ' !in token && '\t' !in token && '"' !in token && '\\' !in token && '%' !in token
  {
    NeedsQuotesAfterEscape(token);
    EscapedIsLonger(token);
    QuotedIsLonger(IniEscape(token));
  }

  lemma {:induction false} EscapedIsLonger(token: string)
    ensures |IniEscape(token)| >= |token|
    ensures '\\' !in token && '%' !in token ==> IniEscape(token) == token
    ensures '\\' in token || '%' in token ==> |IniEscape(token)| > |token|
  {
    if token != "" {
      IniEscapeCons(token);
      EscapedIsLonger(token[1..]);
      assert token == [token[0]] + token[1..];
    }
  }

  lemma {:induction false} QuotedIsLonger(s: string)
    ensures |QuoteChars(s)| >= |s|
  {
    if s != "" {
      QuotedIsLonger(s[1..]);
    }
  }
}
