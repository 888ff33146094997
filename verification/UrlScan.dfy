/**
 URL redaction over a whole text: the matches of the URL pattern, found left to right, are
 rewritten and everything else is copied. The rewritten text holds the same matches, so
 redaction is idempotent, and what a URL's secrets were cannot be told from the output.
 */
module UrlScan {
  import opened Prelude
  import opened Text
  import opened UrlRedaction

  /** [a-z] under case folding, which adds the Kelvin sign and the long s. */
  predicate Letter(c: char) {
    'a' <= c <= 'z' || 'A' <= c <= 'Z' || c == '\U{212A}' || c == '\U{17F}'
  }

  predicate SchemeChar(c: char) {
    Letter(c) || '0' <= c <= '9' || c == '+' || c == '.' || c == '-'
  }

  /** \w, whose edge \b looks for. */
  predicate Word(c: char) {
    'a' <= c <= 'z' || 'A' <= c <= 'Z' || '0' <= c <= '9' || c == '_'
  }

  /** What a URL may go on with: no white space, no quote, no angle bracket. */
  predicate UrlChar(c: char) {
    c != ' ' && c != '\t' && c != '\n' && c != '\r' && c as int != 12 &&
    c != '"' && c != '\'' && c != '`' && c != '<' && c != '>'
  }

  predicate AllUrl(s: string) {
    forall i :: 0 <= i < |s| ==> UrlChar(s[i])
  }

  /** A URL run stops here: the text ends or its next character cannot be in a URL. */
  predicate Stops(s: string) {
    s == "" || !UrlChar(s[0])
  }

  function SchemeRun(s: string): (n: nat)
    ensures n <= |s|
  {
    if s != "" && SchemeChar(s[0]) then 1 + SchemeRun(s[1..]) else 0
  }

  function UrlRun(s: string): (n: nat)
    ensures n <= |s|
  {
    if s != "" && UrlChar(s[0]) then 1 + UrlRun(s[1..]) else 0
  }

  predicate SeparatorNext(s: string) {
    |s| > 3 && s[0] == ':' && s[1] == '/' && s[2] == '/' && UrlChar(s[3])
  }

  /** The pattern matches at the front of `s`; `prev` says that a word character precedes it. */
  predicate Starts(prev: bool, s: string) {
    s != "" && Letter(s[0]) && prev != Word(s[0]) && SeparatorNext(s[SchemeRun(s)..])
  }

  function MatchLength(s: string): (n: nat)
    ensures n <= |s|
  {
    var n := SchemeRun(s);
    if n + 3 <= |s| then n + 3 + UrlRun(s[n + 3..]) else |s|
  }

  lemma {:induction false} SchemeRunIsScheme(s: string, i: nat)
    requires i < SchemeRun(s)
    ensures SchemeChar(s[i])
  {
    if i > 0 {
      SchemeRunIsScheme(s[1..], i - 1);
    }
  }

  lemma {:induction false} UrlRunIs(s: string)
    ensures AllUrl(s[..UrlRun(s)]) && Stops(s[UrlRun(s)..])
  {
    if s != "" && UrlChar(s[0]) {
      UrlRunIs(s[1..]);
      assert s[..UrlRun(s)] == [s[0]] + s[1..][..UrlRun(s[1..])];
      assert s[UrlRun(s)..] == s[1..][UrlRun(s[1..])..];
    }
  }

  lemma {:induction false} UrlRunOf(a: string, b: string)
    requires AllUrl(a) && Stops(b)
    ensures UrlRun(a + b) == |a|
  {
    if a == "" {
      assert a + b == b;
    } else {
      assert UrlChar(a[0]);
      assert (a + b)[1..] == a[1..] + b;
      UrlRunOf(a[1..], b);
    }
  }

  lemma {:induction false} SchemeRunOf(a: string, b: string)
    requires (forall i :: 0 <= i < |a| ==> SchemeChar(a[i])) && (b == "" || !SchemeChar(b[0]))
    ensures SchemeRun(a + b) == |a|
  {
    if a == "" {
      assert a + b == b;
    } else {
      assert SchemeChar(a[0]);
      assert (a + b)[1..] == a[1..] + b;
      SchemeRunOf(a[1..], b);
    }
  }

  predicate IsScheme(s: string) {
    s != "" && Letter(s[0]) && forall i :: 0 <= i < |s| ==> SchemeChar(s[i])
  }

  lemma SchemeHoldsNoMark(s: string)
    requires IsScheme(s)
    ensures ':' !in s && '?' !in s && '#' !in s
  {}

  lemma SchemeAtFront(s: string)
    requires s != "" && Letter(s[0])
    ensures SchemeRun(s) >= 1 && IsScheme(s[..SchemeRun(s)])
  {
    var n := SchemeRun(s);
    forall i | 0 <= i < n ensures SchemeChar(s[..n][i]) {
      SchemeRunIsScheme(s, i);
    }
  }

  lemma HeadAtFront(s: string, n: nat, m: nat)
    requires n + 3 <= m <= |s| && s[n] == ':' && s[n + 1] == '/' && s[n + 2] == '/'
    ensures s[..m] == Head(s[..n]) + s[n + 3..m]
  {}

  lemma TailAtFront(s: string, n: nat)
    requires n < |s| && UrlChar(s[n])
    ensures var m := n + UrlRun(s[n..]); n < m && AllUrl(s[n..m]) && Stops(s[m..])
  {
    var m := n + UrlRun(s[n..]);
    UrlRunIs(s[n..]);
    assert s[n..][..m - n] == s[n..m] && s[n..][m - n..] == s[m..];
  }

  lemma MatchedCharacters(prev: bool, s: string)
    requires Starts(prev, s)
    ensures var n, m := SchemeRun(s), MatchLength(s);
            && n + 3 < m
            && (forall i :: 0 <= i < n ==> SchemeChar(s[i])) && Letter(s[0])
            && (forall i :: n + 3 <= i < m ==> UrlChar(s[i])) && (m < |s| ==> !UrlChar(s[m]))
  {
    var n, m := SchemeRun(s), MatchLength(s);
    var tail := s[n + 3..];
    assert s[n..][3] == tail[0];
    UrlRunIs(tail);
    forall i | n + 3 <= i < m ensures UrlChar(s[i]) {
      assert s[i] == tail[..UrlRun(tail)][i - n - 3];
    }
    assert m < |s| ==> tail[UrlRun(tail)..][0] == s[m];
    forall i | 0 <= i < n ensures SchemeChar(s[i]) {
      SchemeRunIsScheme(s, i);
    }
  }

  /** What ends a URL: white space, a quote of any kind, an angle bracket. */
  predicate Ends(c: char) {
    c in {' ', '\t', '\n', '\r', '"', '\'', '`', '<', '>'} || c as int == 12
  }

  /**
   Character by character: the scheme starts with a letter and goes on with letters, digits
   and `+.-`, and the run behind "://" goes on as long as nothing in it ends a URL.
   */
  lemma MatchIsTheWholeRun(prev: bool, s: string)
    requires Starts(prev, s)
    ensures var n, m := SchemeRun(s), MatchLength(s);
            && (forall i :: n + 3 <= i < m ==> !Ends(s[i])) && (m < |s| ==> Ends(s[m]))
            && (forall i :: 0 <= i < n ==>
                  || 'a' <= s[i] <= 'z' || 'A' <= s[i] <= 'Z' || s[i] == '\U{212A}' || s[i] == '\U{17F}'
                  || (i > 0 && ('0' <= s[i] <= '9' || s[i] == '+' || s[i] == '.' || s[i] == '-')))
  {
    MatchedCharacters(prev, s);
  }

  /** A match is a scheme, "://" and a nonempty run of URL characters up to where the run stops. */
  lemma MatchShape(prev: bool, s: string)
    requires Starts(prev, s)
    ensures var n, m := SchemeRun(s), MatchLength(s);
            && 1 <= n && n + 3 < m
            && IsScheme(s[..n]) && s[..m] == Head(s[..n]) + s[n + 3..m]
            && AllUrl(s[n + 3..m]) && Stops(s[m..])
  {
    var n := SchemeRun(s);
    var rest := s[n..];
    assert s[n] == rest[0] && s[n + 1] == rest[1] && s[n + 2] == rest[2] && s[n + 3] == rest[3];
    SchemeAtFront(s);
    TailAtFront(s, n + 3);
    HeadAtFront(s, n, MatchLength(s));
  }

  /** Text of that shape is matched whole. */
  lemma ShapeMatches(prev: bool, scheme: string, tail: string, rest: string)
    requires IsScheme(scheme) && tail != "" && AllUrl(tail) && Stops(rest) && prev != Word(scheme[0])
    ensures var s := Head(scheme) + tail + rest; Starts(prev, s) && MatchLength(s) == |Head(scheme)| + |tail|
  {
    var after := "://" + (tail + rest);
    var s := Head(scheme) + tail + rest;
    assert s == scheme + after;
    SchemeRunOf(scheme, after);
    assert s[|scheme|..] == after;
    assert after[3] == tail[0] && UrlChar(tail[0]);
    assert s[|scheme| + 3..] == tail + rest;
    UrlRunOf(tail, rest);
  }

  /** redactURLCredentials over a text; `prev` says that a word character precedes it. */
  function Redact(prev: bool, s: string): string
    decreases |s|
  {
    if s == "" then ""
    else if Starts(prev, s) then
      MatchShape(prev, s);
      var m := MatchLength(s);
      RedactUrl(s[..m]) + Redact(Word(s[m - 1]), s[m..])
    else [s[0]] + Redact(Word(s[0]), s[1..])
  }

  /* ---- a redacted URL is still one match ---- */

  lemma {:induction false} JoinAllUrl(parts: seq<string>, sep: char)
    requires |parts| > 0 && UrlChar(sep)
    ensures AllUrl(Join(parts, sep)) <==> forall i :: 0 <= i < |parts| ==> AllUrl(parts[i])
  {
    if |parts| > 1 {
      var more := Join(parts[1..], sep);
      JoinAllUrl(parts[1..], sep);
      AllUrlSplits(parts[0], [sep] + more);
      AllUrlSplits([sep], more);
      assert parts[0] + ([sep] + more) == Join(parts, sep);
      assert parts == [parts[0]] + parts[1..];
    }
  }

  lemma AllUrlSplits(a: string, b: string)
    ensures AllUrl(a + b) <==> AllUrl(a) && AllUrl(b)
  {
    if AllUrl(a + b) {
      assert forall i :: 0 <= i < |a| ==> a[i] == (a + b)[i];
      assert forall i :: 0 <= i < |b| ==> b[i] == (a + b)[|a| + i];
    }
  }

  lemma BlankParamIsUrl(p: Param)
    requires AllUrl(ParamText(p))
    ensures AllUrl(ParamText(BlankParam(p)))
  {
    if p.Named? {
      AllUrlSplits(p.name + "=", p.value);
      AllUrlSplits(p.name + "=", BLANK);
    }
  }

  lemma BlankPartIsUrl(mark: char, ps: Option<seq<Param>>)
    requires UrlChar(mark) && (ps.Some? ==> ps.value != []) && AllUrl(RenderParams(mark, ps))
    ensures AllUrl(RenderParams(mark, BlankPart(ps)))
  {
    if ps.Some? {
      var texts, blank := ParamTexts(ps.value), ParamTexts(BlankParams(ps.value));
      AllUrlSplits([mark], Join(texts, '&'));
      JoinAllUrl(texts, '&');
      forall i | 0 <= i < |blank| ensures AllUrl(blank[i]) {
        assert AllUrl(texts[i]);
        BlankParamIsUrl(ps.value[i]);
      }
      JoinAllUrl(blank, '&');
      AllUrlSplits([mark], Join(blank, '&'));
    }
  }

  /** What a URL's parts render to after its "://". */
  function TailOf(u: Url): string
    requires (u.query.Some? ==> u.query.value != []) && (u.fragment.Some? ==> u.fragment.value != [])
  {
    RenderUser(u.user) + u.site + RenderParams('?', u.query) + RenderParams('#', u.fragment)
  }

  lemma RenderIsHeadAndTail(u: Url)
    requires (u.query.Some? ==> u.query.value != []) && (u.fragment.Some? ==> u.fragment.value != [])
    ensures Render(u) == Head(u.scheme) + TailOf(u)
  {
    var front := RenderUser(u.user) + u.site;
    Regroup(Head(u.scheme), front, RenderParams('?', u.query));
    Regroup(Head(u.scheme), front + RenderParams('?', u.query), RenderParams('#', u.fragment));
  }

  lemma BlankTailIsUrl(u: Url)
    requires WellFormed(u) && TailOf(u) != "" && AllUrl(TailOf(u))
    ensures TailOf(Blank(u)) != "" && AllUrl(TailOf(Blank(u)))
  {
    var b := Blank(u);
    TailSplits(u);
    TailSplits(b);
    BlankPartIsUrl('?', u.query);
    BlankPartIsUrl('#', u.fragment);
    BlankUserIsUrl(u.user);
  }

  lemma TailSplits(u: Url)
    requires (u.query.Some? ==> u.query.value != []) && (u.fragment.Some? ==> u.fragment.value != [])
    ensures AllUrl(TailOf(u)) <==>
              && AllUrl(RenderUser(u.user)) && AllUrl(u.site)
              && AllUrl(RenderParams('?', u.query)) && AllUrl(RenderParams('#', u.fragment))
    ensures TailOf(u) == "" <==> u.user.None? && u.site == "" && u.query.None? && u.fragment.None?
  {
    AllUrlSplits(RenderUser(u.user) + u.site + RenderParams('?', u.query), RenderParams('#', u.fragment));
    AllUrlSplits(RenderUser(u.user) + u.site, RenderParams('?', u.query));
    AllUrlSplits(RenderUser(u.user), u.site);
  }

  lemma BlankUserIsUrl(user: Option<string>)
    requires AllUrl(RenderUser(user))
    ensures AllUrl(RenderUser(if user.None? then None else Some(BLANK)))
  {}

  /** Redacting a match keeps its scheme and leaves a match of the same shape. */
  lemma RedactedIsAMatch(scheme: string, tail: string) returns (redacted: string)
    requires IsScheme(scheme) && tail != "" && AllUrl(tail)
    ensures RedactUrl(Head(scheme) + tail) == Head(scheme) + redacted
    ensures redacted != "" && AllUrl(redacted)
    ensures RedactUrl(Head(scheme) + redacted) == Head(scheme) + redacted
  {
    SchemeHoldsNoMark(scheme);
    EveryUrlHasParts(scheme, tail);
    RedactUrlTwice(scheme, tail);
    var u := Parse(scheme, tail);
    RedactionBlanksTheParts(u);
    BlankIsWellFormed(u);
    RenderIsHeadAndTail(u);
    RenderIsHeadAndTail(Blank(u));
    SameHead(Head(scheme), tail, TailOf(u));
    BlankTailIsUrl(u);
    redacted := TailOf(Blank(u));
  }

  lemma SameHead(head: string, a: string, b: string)
    requires head + a == head + b
    ensures a == b
  {
    assert (head + a)[|head|..] == a && (head + b)[|head|..] == b;
  }

  /* ---- idempotence over a text ---- */

  lemma RedactMatch(prev: bool, scheme: string, tail: string, rest: string)
    requires IsScheme(scheme) && tail != "" && AllUrl(tail) && Stops(rest) && prev != Word(scheme[0])
    ensures Redact(prev, Head(scheme) + tail + rest) == RedactUrl(Head(scheme) + tail) + Redact(false, rest)
  {
    var raw := Head(scheme) + tail;
    ShapeMatches(prev, scheme, tail, rest);
    assert (raw + rest)[..|raw|] == raw && (raw + rest)[|raw|..] == rest;
    EdgeDoesNotMatter(Word((raw + rest)[|raw| - 1]), rest);
  }

  /** Where a URL run stops no match starts, so what precedes it does not matter. */
  lemma EdgeDoesNotMatter(prev: bool, rest: string)
    requires Stops(rest)
    ensures Redact(prev, rest) == Redact(false, rest)
  {}

  /** The parts of a match at the front of a text. */
  lemma MatchAtFront(prev: bool, s: string) returns (scheme: string, tail: string, rest: string)
    requires Starts(prev, s)
    ensures IsScheme(scheme) && tail != "" && AllUrl(tail) && Stops(rest) && prev != Word(scheme[0])
    ensures s == Head(scheme) + tail + rest && |rest| < |s|
  {
    MatchShape(prev, s);
    var n, m := SchemeRun(s), MatchLength(s);
    scheme, tail, rest := s[..n], s[n + 3..m], s[m..];
    assert s == s[..m] + s[m..];
  }

  lemma FirstIsKept(prev: bool, s: string)
    ensures |Redact(prev, s)| == 0 <==> s == ""
    ensures s != "" ==> Redact(prev, s)[0] == s[0]
  {
    if Starts(prev, s) {
      var scheme, tail, rest := MatchAtFront(prev, s);
      RedactMatch(prev, scheme, tail, rest);
      var redacted := RedactedIsAMatch(scheme, tail);
    }
  }

  lemma StopsIsKept(prev: bool, s: string)
    ensures Stops(Redact(prev, s)) <==> Stops(s)
  {
    FirstIsKept(prev, s);
  }

  /** A separator that follows a scheme is there after redaction exactly when it was before. */
  lemma SeparatorIsKept(prev: bool, s: string)
    requires s == "" || !SchemeChar(s[0])
    ensures SeparatorNext(Redact(prev, s)) <==> SeparatorNext(s)
  {
    FirstIsKept(prev, s);
    if s != "" && s[0] == ':' {
      FirstIsKept(Word(s[0]), s[1..]);
      if |s| > 1 && s[1] == '/' {
        FirstIsKept(Word(s[1]), s[2..]);
        assert s[1..][1..] == s[2..];
        if |s| > 2 && s[2] == '/' {
          FirstIsKept(Word(s[2]), s[3..]);
          assert s[2..][1..] == s[3..];
        }
      }
    }
  }

  lemma {:induction false} SeparatorAfterRunIsKept(prev: bool, s: string)
    ensures var t := Redact(prev, s); SeparatorNext(t[SchemeRun(t)..]) <==> SeparatorNext(s[SchemeRun(s)..])
    decreases |s|
  {
    var t := Redact(prev, s);
    if Starts(prev, s) {
      var scheme, tail, rest := MatchAtFront(prev, s);
      RedactMatch(prev, scheme, tail, rest);
      var redacted := RedactedIsAMatch(scheme, tail);
      StopsIsKept(false, rest);
      ShapeMatches(prev, scheme, redacted, Redact(false, rest));
    } else if s != "" && SchemeChar(s[0]) {
      SeparatorAfterRunIsKept(Word(s[0]), s[1..]);
      assert t[1..] == Redact(Word(s[0]), s[1..]);
      assert t[SchemeRun(t)..] == t[1..][SchemeRun(t[1..])..];
      assert s[SchemeRun(s)..] == s[1..][SchemeRun(s[1..])..];
    } else {
      FirstIsKept(prev, s);
      SeparatorIsKept(prev, s);
      assert t[0..] == t && s[0..] == s;
    }
  }

  /** Redacting a text twice is redacting it once. */
  lemma {:induction false} RedactTwice(prev: bool, s: string)
    ensures Redact(prev, Redact(prev, s)) == Redact(prev, s)
    decreases |s|
  {
    var t := Redact(prev, s);
    if s == "" {
    } else if Starts(prev, s) {
      var scheme, tail, rest := MatchAtFront(prev, s);
      RedactMatch(prev, scheme, tail, rest);
      var redacted := RedactedIsAMatch(scheme, tail);
      RedactTwice(false, rest);
      StopsIsKept(false, rest);
      RedactMatch(prev, scheme, redacted, Redact(false, rest));
    } else {
      RedactTwice(Word(s[0]), s[1..]);
      assert t[1..] == Redact(Word(s[0]), s[1..]);
      FirstIsKept(prev, s);
      SeparatorAfterRunIsKept(prev, s);
      assert !Starts(prev, t);
    }
  }

  /* ---- where a text can be cut ---- */

  predicate SeparatorAtIndex(s: string, i: int) {
    0 <= i && i + 3 <= |s| && s[i] == ':' && s[i + 1] == '/' && s[i + 2] == '/'
  }

  predicate StopFrom(s: string, i: int) {
    exists j :: 0 <= j < |s| && i <= j && !UrlChar(s[j])
  }

  /** No match that starts in `s` is still open at its end: its trailing run of URL characters holds no "://". */
  ghost predicate Closed(s: string) {
    forall i :: SeparatorAtIndex(s, i) ==> StopFrom(s, i + 3)
  }

  /** The text may be cut behind `a`: no scheme and no match goes on there. */
  ghost predicate Cut(a: string, b: string) {
    a == "" || (!SchemeChar(a[|a| - 1]) && Closed(a) && (b == "" || b[0] != '/'))
  }

  lemma ClosedSuffix(a: string, k: nat)
    requires Closed(a) && k <= |a|
    ensures Closed(a[k..])
  {
    var t := a[k..];
    forall i | SeparatorAtIndex(t, i) ensures StopFrom(t, i + 3) {
      assert SeparatorAtIndex(a, k + i);
      var j :| 0 <= j < |a| && k + i + 3 <= j && !UrlChar(a[j]);
      assert t[j - k] == a[j];
    }
  }

  lemma {:induction false} SchemeRunEnds(a: string, b: string)
    requires a != "" && !SchemeChar(a[|a| - 1])
    ensures SchemeRun(a + b) == SchemeRun(a) < |a|
  {
    if |a| > 1 {
      assert (a + b)[1..] == a[1..] + b;
      SchemeRunEnds(a[1..], b);
    }
  }

  lemma {:induction false} UrlRunEnds(a: string, b: string, j: nat)
    requires j < |a| && !UrlChar(a[j])
    ensures UrlRun(a + b) == UrlRun(a) <= j
  {
    if UrlChar(a[0]) {
      assert (a + b)[1..] == a[1..] + b;
      UrlRunEnds(a[1..], b, j - 1);
    }
  }

  lemma SeparatorInFront(a: string, b: string, n: nat)
    requires a != "" && Cut(a, b) && n < |a|
    ensures SeparatorNext((a + b)[n..]) <==> SeparatorNext(a[n..])
  {
    var s := a + b;
    assert s[n..] == a[n..] + b;
    if SeparatorNext(s[n..]) {
      assert s[n] == ':' && s[n + 1] == '/' && s[n + 2] == '/';
      assert n + 3 <= |a|;
      assert SeparatorAtIndex(a, n);
      var j :| 0 <= j < |a| && n + 3 <= j && !UrlChar(a[j]);
      assert a[n..][3] == s[n..][3];
    }
  }

  /** Behind a cut nothing of what starts before it is decided. */
  lemma StartsBeforeCut(prev: bool, a: string, b: string)
    requires a != "" && Cut(a, b)
    ensures Starts(prev, a + b) <==> Starts(prev, a)
    ensures Starts(prev, a) ==> MatchLength(a + b) == MatchLength(a) < |a|
  {
    SchemeRunEnds(a, b);
    var n := SchemeRun(a);
    SeparatorInFront(a, b, n);
    if Starts(prev, a) {
      MatchBeforeCut(prev, a, b, n);
    }
  }

  lemma MatchBeforeCut(prev: bool, a: string, b: string, n: nat)
    requires a != "" && Cut(a, b) && Starts(prev, a) && n == SchemeRun(a) == SchemeRun(a + b)
    ensures MatchLength(a + b) == MatchLength(a) < |a|
  {
    var rest := a[n..];
    assert a[n] == rest[0] && a[n + 1] == rest[1] && a[n + 2] == rest[2];
    assert SeparatorAtIndex(a, n);
    var j :| 0 <= j < |a| && n + 3 <= j && !UrlChar(a[j]);
    var tail := a[n + 3..];
    DropWithin(a, b, n + 3);
    assert tail[j - n - 3] == a[j];
    UrlRunEnds(tail, b, j - n - 3);
  }

  lemma CutSuffix(a: string, b: string, k: nat)
    requires a != "" && Cut(a, b) && k < |a|
    ensures Cut(a[k..], b) && a[k..] != "" && a[k..][|a[k..]| - 1] == a[|a| - 1]
  {
    ClosedSuffix(a, k);
  }

  lemma RedactUnfolds(prev: bool, s: string, front: string, rest: string)
    requires Starts(prev, s) && front != "" && s == front + rest && |front| == MatchLength(s)
    ensures Redact(prev, s) == RedactUrl(front) + Redact(Word(front[|front| - 1]), rest)
  {
    MatchShape(prev, s);
    assert s[..|front|] == front && s[|front|..] == rest;
  }

  lemma RedactMatchBeforeCut(prev: bool, front: string, rest: string, b: string)
    requires front != "" && rest != "" && Cut(front + rest, b)
    requires Starts(prev, front + rest) && MatchLength(front + rest) == |front|
    ensures Redact(prev, front + rest) == RedactUrl(front) + Redact(Word(front[|front| - 1]), rest)
    ensures Redact(prev, front + (rest + b)) == RedactUrl(front) + Redact(Word(front[|front| - 1]), rest + b)
  {
    StartsBeforeCut(prev, front + rest, b);
    Regroup(front, rest, b);
    RedactUnfolds(prev, front + rest, front, rest);
    RedactUnfolds(prev, front + (rest + b), front, rest + b);
  }

  lemma RedactCharBeforeCut(prev: bool, a: string, b: string)
    requires a != "" && Cut(a, b) && !Starts(prev, a)
    ensures Redact(prev, a + b) == [a[0]] + Redact(Word(a[0]), a[1..] + b)
    ensures Redact(prev, a) == [a[0]] + Redact(Word(a[0]), a[1..])
  {
    StartsBeforeCut(prev, a, b);
    assert (a + b)[1..] == a[1..] + b;
  }

  /** What precedes the text behind `a`. */
  function Edge(prev: bool, a: string): bool {
    if a == "" then prev else Word(a[|a| - 1])
  }

  /** A match before the cut, and the text between them. */
  lemma MatchAtCut(prev: bool, a: string, b: string) returns (front: string, rest: string)
    requires a != "" && Cut(a, b) && Starts(prev, a)
    ensures a == front + rest && front != "" && rest != "" && rest[|rest| - 1] == a[|a| - 1] && Cut(rest, b)
    ensures Redact(prev, a) == RedactUrl(front) + Redact(Word(front[|front| - 1]), rest)
    ensures Redact(prev, a + b) == RedactUrl(front) + Redact(Word(front[|front| - 1]), rest + b)
  {
    front, rest := SplitAtMatch(prev, a, b);
    Regroup(front, rest, b);
    RedactMatchBeforeCut(prev, front, rest, b);
  }

  lemma SplitAtMatch(prev: bool, a: string, b: string) returns (front: string, rest: string)
    requires a != "" && Cut(a, b) && Starts(prev, a)
    ensures a == front + rest && |front| == MatchLength(a) && front != "" && rest != ""
    ensures rest[|rest| - 1] == a[|a| - 1] && Cut(rest, b)
  {
    var m := MatchLength(a);
    StartsBeforeCut(prev, a, b);
    MatchShape(prev, a);
    front, rest := a[..m], a[m..];
    CutSuffix(a, b, m);
  }

  /** A cut splits the work in two. */
  lemma {:induction false} RedactSplits(prev: bool, a: string, b: string)
    requires Cut(a, b)
    ensures Redact(prev, a + b) == Redact(prev, a) + Redact(Edge(prev, a), b)
    decreases |a|
  {
    if a == "" {
      assert a + b == b;
    } else if Starts(prev, a) {
      var front, rest := MatchAtCut(prev, a, b);
      var edge := Word(front[|front| - 1]);
      RedactSplits(edge, rest, b);
      Regroup(RedactUrl(front), Redact(edge, rest), Redact(Edge(prev, a), b));
    } else {
      RedactCharBeforeCut(prev, a, b);
      var edge, rest := Word(a[0]), a[1..];
      if rest != "" {
        CutSuffix(a, b, 1);
      }
      RedactSplits(edge, rest, b);
      Regroup([a[0]], Redact(edge, rest), Redact(Edge(prev, a), b));
    }
  }

  /* ---- the run of scheme characters before a "://" ---- */

  predicate AllScheme(s: string) {
    forall i :: 0 <= i < |s| ==> SchemeChar(s[i])
  }

  /** A scheme can start here: at a letter on a word boundary. */
  predicate Opens(prev: bool, c: char) {
    Letter(c) && prev != Word(c)
  }

  /** Where in the run the scheme of a match starts, or its length when it cannot. */
  function FirstStart(prev: bool, run: string): (i: nat)
    ensures i <= |run|
    decreases |run|
  {
    if run == "" || Opens(prev, run[0]) then 0 else 1 + FirstStart(Word(run[0]), run[1..])
  }

  predicate OpensAt(prev: bool, run: string, i: int) {
    0 <= i < |run| && Opens(if i == 0 then prev else Word(run[i - 1]), run[i])
  }

  /** It is the first letter of the run on a word boundary, and there is none when it is the length. */
  lemma {:induction false} FirstStartIsFirst(prev: bool, run: string)
    ensures var i := FirstStart(prev, run); i < |run| ==> OpensAt(prev, run, i)
    ensures forall j :: OpensAt(prev, run, j) ==> FirstStart(prev, run) <= j
    decreases |run|
  {
    if run != "" && !Opens(prev, run[0]) {
      FirstStartIsFirst(Word(run[0]), run[1..]);
      forall j | OpensAt(prev, run, j) ensures FirstStart(prev, run) <= j {
        assert OpensAt(Word(run[0]), run[1..], j - 1);
      }
      assert FirstStart(prev, run) < |run| ==> OpensAt(Word(run[0]), run[1..], FirstStart(prev, run) - 1);
    }
  }

  lemma HeadShifts(run: string, tail: string, rest: string)
    requires run != ""
    ensures var s := Head(run) + tail + rest; s != "" && s[0] == run[0] && s[1..] == Head(run[1..]) + tail + rest
  {
    assert Head(run)[1..] == Head(run[1..]);
  }

  /** What a run, "://" and the URL characters behind it redact to. */
  function RunRedacted(prev: bool, run: string, tail: string, rest: string): string {
    var i := FirstStart(prev, run);
    if i < |run| then run[..i] + (RedactUrl(Head(run[i..]) + tail) + Redact(false, rest))
    else Head(run) + Redact(false, tail + rest)
  }

  lemma SchemeOfRun(run: string, i: nat)
    requires AllScheme(run) && i < |run| && Letter(run[i])
    ensures IsScheme(run[i..])
  {}

  /** The run is matched from its first word boundary before a letter on, or copied. */
  lemma {:induction false} RunIsMatchedFrom(prev: bool, run: string, tail: string, rest: string)
    requires AllScheme(run) && tail != "" && AllUrl(tail) && Stops(rest)
    ensures Redact(prev, Head(run) + tail + rest) == RunRedacted(prev, run, tail, rest)
    decreases |run|
  {
    var s := Head(run) + tail + rest;
    if run == "" {
      SeparatorIsCopied(prev, tail, rest);
    } else if Opens(prev, run[0]) {
      SchemeOfRun(run, 0);
      RedactMatch(prev, run, tail, rest);
      assert run[..0] == "" && run[0..] == run;
    } else {
      HeadShifts(run, tail, rest);
      assert AllScheme(run[1..]);
      RunIsMatchedFrom(Word(run[0]), run[1..], tail, rest);
      RunShifts(prev, run, tail, rest);
    }
  }

  lemma RunShifts(prev: bool, run: string, tail: string, rest: string)
    requires run != "" && !Opens(prev, run[0])
    ensures RunRedacted(prev, run, tail, rest) == [run[0]] + RunRedacted(Word(run[0]), run[1..], tail, rest)
  {
    var i := FirstStart(Word(run[0]), run[1..]);
    assert run[i + 1..] == run[1..][i..];
    if i < |run| - 1 {
      assert run[..i + 1] == [run[0]] + run[1..][..i];
      Regroup([run[0]], run[1..][..i], RedactUrl(Head(run[i + 1..]) + tail) + Redact(false, rest));
    } else {
      assert Head(run) == [run[0]] + Head(run[1..]);
      Regroup([run[0]], Head(run[1..]), Redact(false, tail + rest));
    }
  }

  lemma SeparatorSplits(more: string)
    ensures "://" + more == ":" + ("/" + ("/" + more))
  {
    assert "://" == ":" + ("/" + "/");
    Regroup(":", "/" + "/", more);
    Regroup("/", "/", more);
  }

  lemma SeparatorIsCopied(prev: bool, tail: string, rest: string)
    ensures Redact(prev, Head("") + tail + rest) == Head("") + Redact(false, tail + rest)
  {
    var more := tail + rest;
    var sep := Head("");
    assert sep == "://";
    assert sep + tail + rest == sep + more;
    SeparatorSplits(more);
    SeparatorSplits(Redact(false, more));
    CopiedThree(prev, more);
  }

  lemma CopiedThree(prev: bool, more: string)
    ensures Redact(prev, ":" + ("/" + ("/" + more))) == ":" + ("/" + ("/" + Redact(false, more)))
  {
    var last := "/" + more;
    CopiedChar(false, '/', more);
    CopiedChar(false, '/', last);
    CopiedChar(prev, ':', "/" + last);
  }

  lemma CopiedChar(prev: bool, c: char, more: string)
    requires !Letter(c) && !Word(c)
    ensures Redact(prev, [c] + more) == [c] + Redact(false, more)
  {
    assert ([c] + more)[1..] == more;
  }

  /** Text without a "://" is copied up to where the URL run stops. */
  lemma {:induction false} PlainIsCopied(prev: bool, tail: string, rest: string)
    requires Stops(rest) && forall i :: !SeparatorAtIndex(tail, i)
    ensures Redact(prev, tail + rest) == tail + Redact(false, rest)
    decreases |tail|
  {
    if tail == "" {
      assert tail + rest == rest && "" + Redact(false, rest) == Redact(false, rest);
      EdgeDoesNotMatter(prev, rest);
    } else {
      NoMatchInPlain(prev, tail, rest);
      assert (tail + rest)[1..] == tail[1..] + rest;
      forall i ensures !SeparatorAtIndex(tail[1..], i) {
        assert !SeparatorAtIndex(tail, i + 1);
      }
      PlainIsCopied(Word(tail[0]), tail[1..], rest);
      Regroup([tail[0]], tail[1..], Redact(false, rest));
      assert [tail[0]] + tail[1..] == tail;
    }
  }

  lemma NoMatchInPlain(prev: bool, tail: string, rest: string)
    requires tail != "" && Stops(rest) && forall i :: !SeparatorAtIndex(tail, i)
    ensures !Starts(prev, tail + rest)
  {
    var s := tail + rest;
    var n := SchemeRun(s);
    if SeparatorNext(s[n..]) {
      assert s[n..][0] == s[n] && s[n..][1] == s[n + 1] && s[n..][2] == s[n + 2];
      assert rest != "" ==> s[|tail|] == rest[0];
      assert n < |tail| ==> SeparatorAtIndex(tail, n) || n + 3 > |tail|;
      if n >= |tail| {
        SchemeRunIsScheme(s, |tail|);
      }
    }
  }

  /* ---- what the secrets were cannot be told ---- */

  /**
   The parts of a URL as it stands in a text: its scheme is the whole run of scheme characters
   before "://", and the run of URL characters behind that is its tail.
   */
  ghost predicate IsLink(u: Url) {
    WellFormed(u) && AllScheme(u.scheme) && TailOf(u) != "" && AllUrl(TailOf(u))
  }

  /** The pattern matches the URL behind `before`: some letter of its scheme is on a word boundary. */
  predicate Matched(before: string, u: Url) {
    FirstStart(Edge(false, before), u.scheme) < |u.scheme|
  }

  lemma RenderFromStart(u: Url, i: nat)
    requires WellFormed(u) && i <= |u.scheme|
    ensures WellFormed(u.(scheme := u.scheme[i..]))
    ensures u.scheme[..i] + Render(Blank(u.(scheme := u.scheme[i..]))) == Render(Blank(u))
  {
    var v := u.(scheme := u.scheme[i..]);
    BlankIsWellFormed(u);
    RenderIsHeadAndTail(Blank(u));
    RenderIsHeadAndTail(Blank(v));
    assert TailOf(Blank(u)) == TailOf(Blank(v));
    assert u.scheme[..i] + Head(u.scheme[i..]) == Head(u.scheme);
    Regroup(u.scheme[..i], Head(u.scheme[i..]), TailOf(Blank(v)));
  }

  lemma LinkRedacts(prev: bool, u: Url, after: string)
    requires IsLink(u) && Stops(after)
    ensures var i := FirstStart(prev, u.scheme);
            Redact(prev, Render(u) + after) ==
              if i < |u.scheme| then Render(Blank(u)) + Redact(false, after)
              else Head(u.scheme) + Redact(false, TailOf(u) + after)
  {
    var i, tail := FirstStart(prev, u.scheme), TailOf(u);
    RenderIsHeadAndTail(u);
    RunIsMatchedFrom(prev, u.scheme, tail, after);
    if i < |u.scheme| {
      var v := u.(scheme := u.scheme[i..]);
      RenderFromStart(u, i);
      RenderIsHeadAndTail(v);
      assert TailOf(v) == tail;
      RedactionBlanksTheParts(v);
      Regroup(u.scheme[..i], Render(Blank(v)), Redact(false, after));
    }
  }

  /**
   A URL in a text, set off or glued to what precedes it: it is replaced by its blanked parts
   exactly when the pattern matches it there, and nothing around it moves. What precedes it
   must not end in a scheme character, which would belong to its scheme, and must not be
   inside an earlier URL.
   */
  lemma LinkIsBlankedIffMatched(before: string, u: Url, after: string)
    requires Cut(before, "") && IsLink(u) && Stops(after)
    ensures Redact(false, before + (Render(u) + after)) ==
            Redact(false, before) +
              if Matched(before, u) then Render(Blank(u)) + Redact(false, after)
              else Head(u.scheme) + Redact(false, TailOf(u) + after)
  {
    var b := Render(u) + after;
    RenderIsHeadAndTail(u);
    assert Head(u.scheme)[0] == if u.scheme == "" then ':' else u.scheme[0];
    assert b[0] == Head(u.scheme)[0] != '/';
    RedactSplits(false, before, b);
    LinkRedacts(Edge(false, before), u, after);
  }

  /**
   Two texts that differ only in the user and the parameter values of a URL that the pattern
   matches redact to the same text: the output depends on the scheme, the site, the names and
   where `=` stands.
   */
  lemma SecretsCannotBeTold(before: string, u: Url, v: Url, after: string)
    requires Cut(before, "") && IsLink(u) && IsLink(v) && Stops(after)
    requires Blank(u) == Blank(v) && Matched(before, u)
    ensures Redact(false, before + (Render(u) + after)) == Redact(false, before + (Render(v) + after))
  {
    LinkIsBlankedIffMatched(before, u, after);
    LinkIsBlankedIffMatched(before, v, after);
  }

  /** A URL the pattern does not match there, and that holds no second "://", is kept as it is. */
  lemma UnmatchedLinkIsKept(before: string, u: Url, after: string)
    requires Cut(before, "") && IsLink(u) && Stops(after) && !Matched(before, u)
    requires forall i :: !SeparatorAtIndex(TailOf(u), i)
    ensures Redact(false, before + (Render(u) + after)) == Redact(false, before) + (Render(u) + Redact(false, after))
  {
    LinkIsBlankedIffMatched(before, u, after);
    PlainIsCopied(false, TailOf(u), after);
    RenderIsHeadAndTail(u);
    Regroup(Head(u.scheme), TailOf(u), Redact(false, after));
  }

  /** An underscore right before a plain scheme leaves no word boundary in it: the user stays. */
  lemma UnderscoreKeepsTheUser()
    ensures var u := Url("http", Some("u:p"), "h", None, None);
            && IsLink(u) && Render(u) == "http://u:p@h"
            && Redact(false, "_" + (Render(u) + "")) == "_" + (Render(u) + "")
            && Render(Blank(u)) != Render(u)
  {
    var u := Url("http", Some("u:p"), "h", None, None);
    assert TailOf(u) == "u:p@h";
    assert Render(u) == "http://u:p@h";
    PlainExample(u);
    UnmatchedLinkIsKept("_", u, "");
    assert Redact(false, "_") == "_" + Redact(true, "") && "_"[1..] == "";
    RenderIsHeadAndTail(u);
    RenderIsHeadAndTail(Blank(u));
    assert |TailOf(Blank(u))| > |TailOf(u)|;
  }

  lemma PlainExample(u: Url)
    requires u == Url("http", Some("u:p"), "h", None, None) && TailOf(u) == "u:p@h"
    ensures IsLink(u) && !Matched("_", u) && Cut("_", "") && forall i :: !SeparatorAtIndex(TailOf(u), i)
  {
    ExampleIsLink(u);
    assert FirstStart(true, "p") == 1 by { assert "p"[1..] == ""; }
    assert FirstStart(true, "tp") == 2 by { assert "tp"[1..] == "p"; }
    assert FirstStart(true, "ttp") == 3 by { assert "ttp"[1..] == "tp"; }
    assert "http"[1..] == "ttp";
  }

  lemma ExampleIsLink(u: Url)
    requires u == Url("http", Some("u:p"), "h", None, None) && TailOf(u) == "u:p@h"
    ensures IsLink(u)
  {
    assert IndexOf("h", '/') == 1 && Before("h", '/') == "h";
    assert WellFormed(u);
  }
}
