/**
 The support bundle's removal of credentials from every URL in a text. A URL is given by its
 parts; redaction is proved to be exactly "blank the user and every parameter value", both
 for one URL and for a URL inside a text, and to change nothing the second time.
 */
module UrlRedaction {
  import opened Prelude
  import opened Text

  const BLANK := "[REDACTED]"

  /* ---- what the sources do ---- */

  /** redactParamValues on one `&`-separated component. */
  function RedactPair(pair: string): string {
    var i := IndexOf(pair, '=');
    if i == |pair| then pair else pair[..i] + "=" + BLANK
  }

  function MapPairs(pairs: seq<string>): (r: seq<string>)
    ensures |r| == |pairs|
    ensures forall i :: 0 <= i < |r| ==> r[i] == RedactPair(pairs[i])
  {
    if pairs == [] then [] else [RedactPair(pairs[0])] + MapPairs(pairs[1..])
  }

  function ParamsRedacted(component: string): string {
    Join(MapPairs(Split(component, '&')), '&')
  }

  /** redactParamValues: the loop overwrites the pairs that hold a value. */
  method RedactParamValues(component: string) returns (text: string)
    ensures text == ParamsRedacted(component)
  {
    var pairs := Split(component, '&');
    ghost var was := pairs;
    for i := 0 to |pairs|
      invariant |pairs| == |was|
      invariant forall j :: 0 <= j < i ==> pairs[j] == RedactPair(was[j])
      invariant forall j :: i <= j < |pairs| ==> pairs[j] == was[j]
    {
      var pair := pairs[i];
      var at := IndexOf(pair, '=');
      if at == |pair| {
        continue;
      }
      var blanked := pair[..at] + "=" + BLANK;
      assert blanked == RedactPair(pair);
      pairs := pairs[i := blanked];
    }
    assert pairs == MapPairs(was);
    text := Join(pairs, '&');
  }

  /** Where "://" first occurs. */
  function SeparatorAt(s: string): Option<nat> {
    if |s| < 3 then None
    else if s[..3] == "://" then Some(0)
    else match SeparatorAt(s[1..]) case None => None case Some(i) => Some(i + 1)
  }

  /** strings.LastIndex of one character, or |s|. */
  function LastIndexOf(s: string, c: char): (i: nat)
    ensures i <= |s|
    ensures i < |s| ==> s[i] == c && c !in s[i + 1..]
    ensures i == |s| ==> c !in s
  {
    if s == "" then 0
    else if s[|s| - 1] == c then |s| - 1
    else
      var i := LastIndexOf(s[..|s| - 1], c);
      assert s == s[..|s| - 1] + [s[|s| - 1]];
      if i == |s| - 1 then |s|
      else
        assert s[i + 1..] == s[..|s| - 1][i + 1..] + [s[|s| - 1]];
        i
  }

  /** Where the user of an authority and path ends; where the authority ends when it names none. */
  function UserEnd(tail: string): (at: nat)
    ensures at <= IndexOf(tail, '/')
  {
    LastIndexOf(tail[..IndexOf(tail, '/')], '@')
  }

  function RedactTail(tail: string): string {
    if UserEnd(tail) == IndexOf(tail, '/') then tail else BLANK + tail[UserEnd(tail)..]
  }

  /** redactURLUserinfo. */
  function RedactUserinfo(s: string): string {
    match SeparatorAt(s)
    case None => s
    case Some(i) => if i + 3 <= |s| then s[..i + 3] + RedactTail(s[i + 3..]) else s
  }

  predicate Punctuation(c: char) {
    c == '.' || c == ',' || c == ';' || c == ':' || c == '!' || c == ')' || c == ']' || c == '}'
  }

  function TrimPunctuation(s: string): (r: string)
    ensures r <= s
  {
    if s != "" && Punctuation(s[|s| - 1]) then TrimPunctuation(s[..|s| - 1]) else s
  }

  function Before(s: string, c: char): string { s[..IndexOf(s, c)] }

  function After(s: string, c: char): Option<string> {
    if IndexOf(s, c) == |s| then None else Some(s[IndexOf(s, c) + 1..])
  }

  function Part(mark: char, part: Option<string>): string {
    if part.None? then "" else [mark] + ParamsRedacted(part.value)
  }

  /** redactURLCredentials, on one match. */
  function RedactUrl(raw: string): string {
    var url := if '?' in raw || '#' in raw then raw else TrimPunctuation(raw);
    var suffix := raw[|url|..];
    var rest, fragment := Before(url, '#'), After(url, '#');
    RedactUserinfo(Before(rest, '?')) + Part('?', After(rest, '?')) + Part('#', fragment) + suffix
  }

  /* ---- a URL by its parts ---- */

  /** One component of a query or fragment: `name=value`, or text without `=`. */
  datatype Param = Named(name: string, value: string) | Bare(text: string)

  /** `site` is the host and the path together. */
  datatype Url = Url(scheme: string, user: Option<string>, site: string, query: Option<seq<Param>>,
                     fragment: Option<seq<Param>>)

  function ParamText(p: Param): string {
    match p
    case Named(name, value) => name + "=" + value
    case Bare(text) => text
  }

  function ParamTexts(ps: seq<Param>): (r: seq<string>)
    ensures |r| == |ps| && forall i :: 0 <= i < |r| ==> r[i] == ParamText(ps[i])
  {
    if ps == [] then [] else [ParamText(ps[0])] + ParamTexts(ps[1..])
  }

  function RenderParams(mark: char, ps: Option<seq<Param>>): string
    requires ps.Some? ==> ps.value != []
  {
    if ps.None? then "" else [mark] + Join(ParamTexts(ps.value), '&')
  }

  function RenderUser(user: Option<string>): string {
    if user.None? then "" else user.value + ['@']
  }

  function Head(scheme: string): string {
    scheme + "://"
  }

  /** Everything before the query. */
  function Front(u: Url): string {
    Head(u.scheme) + (RenderUser(u.user) + u.site)
  }

  function Render(u: Url): string
    requires (u.query.Some? ==> u.query.value != []) && (u.fragment.Some? ==> u.fragment.value != [])
  {
    Front(u) + RenderParams('?', u.query) + RenderParams('#', u.fragment)
  }

  predicate ParamOk(p: Param) {
    match p
    case Named(name, value) => '=' !in name && '&' !in name && '&' !in value
    case Bare(text) => '=' !in text && '&' !in text
  }

  ghost predicate ParamsOk(ps: Option<seq<Param>>) {
    ps.Some? ==> ps.value != [] && forall i :: 0 <= i < |ps.value| ==> ParamOk(ps.value[i])
  }

  ghost predicate NoHash(ps: Option<seq<Param>>) {
    ps.Some? ==> forall i :: 0 <= i < |ps.value| ==> '#' !in ParamText(ps.value[i])
  }

  /** Each part holds no character that ends it, which is what makes it that part. */
  ghost predicate WellFormed(u: Url) {
    && ':' !in u.scheme && '?' !in u.scheme && '#' !in u.scheme
    && (u.user.Some? ==> '/' !in u.user.value && '?' !in u.user.value && '#' !in u.user.value)
    && '?' !in u.site && '#' !in u.site && '@' !in Before(u.site, '/')
    && ParamsOk(u.query) && NoHash(u.query) && ParamsOk(u.fragment)
  }

  function BlankParam(p: Param): Param {
    match p
    case Named(name, _) => Named(name, BLANK)
    case Bare(_) => p
  }

  function BlankParams(ps: seq<Param>): (r: seq<Param>)
    ensures |r| == |ps| && forall i :: 0 <= i < |r| ==> r[i] == BlankParam(ps[i])
  {
    if ps == [] then [] else [BlankParam(ps[0])] + BlankParams(ps[1..])
  }

  function BlankPart(ps: Option<seq<Param>>): (r: Option<seq<Param>>)
    ensures r.Some? == ps.Some? && (ps.Some? && ps.value != [] ==> r.value != [])
  {
    if ps.None? then None else Some(BlankParams(ps.value))
  }

  /** The same URL with its user and every parameter value blanked. */
  function Blank(u: Url): Url {
    u.(user := if u.user.None? then None else Some(BLANK), query := BlankPart(u.query),
        fragment := BlankPart(u.fragment))
  }

  /** Blanking takes the whole user and every value, and keeps everything else, the names included. */
  lemma BlankKeepsTheRest(u: Url)
    ensures var b := Blank(u);
            && b.scheme == u.scheme && b.site == u.site
            && b.user == (if u.user.Some? then Some("[REDACTED]") else None)
            && ValuesBlanked(u.query, b.query) && ValuesBlanked(u.fragment, b.fragment)
  {}

  ghost predicate ValuesBlanked(before: Option<seq<Param>>, after: Option<seq<Param>>) {
    && before.Some? == after.Some?
    && (before.Some? ==>
          && |before.value| == |after.value|
          && forall i :: 0 <= i < |before.value| ==>
               match before.value[i]
               case Named(name, _) => after.value[i] == Named(name, "[REDACTED]")
               case Bare(text) => after.value[i] == Bare(text))
  }

  lemma BlankIsWellFormed(u: Url)
    requires WellFormed(u)
    ensures WellFormed(Blank(u)) && Blank(Blank(u)) == Blank(u)
  {
    if u.query.Some? {
      var b := BlankParams(u.query.value);
      forall i | 0 <= i < |b| ensures ParamOk(b[i]) && '#' !in ParamText(b[i]) {
        assert ParamOk(u.query.value[i]) && '#' !in ParamText(u.query.value[i]);
      }
      assert BlankParams(b) == b;
    }
    if u.fragment.Some? {
      var b := BlankParams(u.fragment.value);
      forall i | 0 <= i < |b| ensures ParamOk(b[i]) {
        assert ParamOk(u.fragment.value[i]);
      }
      assert BlankParams(b) == b;
    }
  }

  /* ---- one parameter list ---- */

  lemma PairIsBlanked(p: Param)
    requires ParamOk(p)
    ensures RedactPair(ParamText(p)) == ParamText(BlankParam(p))
  {
    match p {
      case Named(name, value) =>
        assert name + "=" + value == name + ['='] + value;
        IndexOfFirst(name, value, '=');
      case Bare(text) =>
        IndexOfNone(text, '=');
    }
  }

  lemma {:induction false} TextsSplit(ps: seq<Param>)
    requires forall i :: 0 <= i < |ps| ==> ParamOk(ps[i])
    ensures Free(ParamTexts(ps), '&')
  {
    if ps != [] {
      assert ParamOk(ps[0]);
      TextsSplit(ps[1..]);
    }
  }

  lemma {:induction false} TextsAreBlanked(ps: seq<Param>)
    requires forall i :: 0 <= i < |ps| ==> ParamOk(ps[i])
    ensures MapPairs(ParamTexts(ps)) == ParamTexts(BlankParams(ps))
  {
    if ps != [] {
      assert ParamOk(ps[0]);
      PairIsBlanked(ps[0]);
      TextsAreBlanked(ps[1..]);
    }
  }

  lemma ParamsAreBlanked(ps: seq<Param>)
    requires ps != [] && forall i :: 0 <= i < |ps| ==> ParamOk(ps[i])
    ensures ParamsRedacted(Join(ParamTexts(ps), '&')) == Join(ParamTexts(BlankParams(ps)), '&')
  {
    TextsSplit(ps);
    SplitJoin(ParamTexts(ps), '&');
    TextsAreBlanked(ps);
  }

  lemma {:induction false} JoinFree(parts: seq<string>, sep: char, c: char)
    requires |parts| > 0 && c != sep && forall i :: 0 <= i < |parts| ==> c !in parts[i]
    ensures c !in Join(parts, sep)
  {
    if |parts| > 1 {
      JoinFree(parts[1..], sep, c);
    }
  }

  /* ---- the userinfo ---- */

  lemma {:induction false} SeparatorAfterScheme(scheme: string, tail: string)
    requires ':' !in scheme
    ensures SeparatorAt(scheme + "://" + tail) == Some(|scheme|)
  {
    var s := scheme + "://" + tail;
    if scheme == "" {
      assert s[..3] == "://";
    } else {
      assert s[0] != ':' && s[..3][0] != "://"[0];
      assert s[1..] == scheme[1..] + "://" + tail;
      SeparatorAfterScheme(scheme[1..], tail);
    }
  }

  lemma {:induction false} LastIndexOfIs(a: string, b: string, c: char)
    requires c !in b
    ensures LastIndexOf(a + [c] + b, c) == |a|
  {
    var s := a + [c] + b;
    if b != [] {
      assert s[..|s| - 1] == a + [c] + b[..|b| - 1];
      LastIndexOfIs(a, b[..|b| - 1], c);
    }
  }

  lemma IndexOfPast(a: string, b: string, c: char)
    requires c !in a
    ensures IndexOf(a + b, c) == |a| + IndexOf(b, c)
  {
    var i := IndexOf(b, c);
    if i == |b| {
      IndexOfNone(a + b, c);
    } else {
      assert a + b == (a + b[..i]) + [c] + b[i + 1..];
      IndexOfFirst(a + b[..i], b[i + 1..], c);
    }
  }

  lemma UserEndIs(name: string, site: string)
    requires '/' !in name && '@' !in Before(site, '/')
    ensures UserEnd(name + ['@'] + site) == |name|
    ensures IndexOf(name + ['@'] + site, '/') == |name| + 1 + IndexOf(site, '/')
  {
    SlashIsPast(name + ['@'], site);
    LastIndexOfIs(name, site[..IndexOf(site, '/')], '@');
  }

  lemma SlashIsPast(head: string, site: string)
    requires '/' !in head
    ensures IndexOf(head + site, '/') == |head| + IndexOf(site, '/')
    ensures UserEnd(head + site) == LastIndexOf(head + site[..IndexOf(site, '/')], '@')
  {
    IndexOfPast(head, site, '/');
    TakePast(head, site, IndexOf(site, '/'));
  }

  lemma TakePast(a: string, b: string, n: nat)
    requires n <= |b|
    ensures (a + b)[..|a| + n] == a + b[..n]
  {}

  /** The text after "://" loses exactly its user. */
  lemma TailIsBlanked(user: Option<string>, site: string)
    requires user.Some? ==> '/' !in user.value
    requires '@' !in Before(site, '/')
    ensures RedactTail(RenderUser(user) + site) == RenderUser(if user.None? then None else Some(BLANK)) + site
  {
    if user.Some? {
      UserEndIs(user.value, site);
      DropPrefix(user.value, ['@'], site);
      Regroup(BLANK, ['@'], site);
    } else {
      assert "" + site == site;
      NoUserEnd(site);
    }
  }

  lemma DropPrefix(a: string, b: string, c: string)
    ensures (a + b + c)[|a|..] == b + c
  {}

  lemma Regroup(a: string, b: string, c: string)
    ensures a + (b + c) == a + b + c
  {}

  lemma NoUserEnd(site: string)
    requires '@' !in Before(site, '/')
    ensures UserEnd(site) == IndexOf(site, '/')
  {}

  lemma UserinfoAfterScheme(scheme: string, tail: string)
    requires ':' !in scheme
    ensures RedactUserinfo(Head(scheme) + tail) == Head(scheme) + RedactTail(tail)
  {
    SeparatorAfterScheme(scheme, tail);
    var head := Head(scheme);
    assert (head + tail)[..|head|] == head && (head + tail)[|head|..] == tail;
  }

  lemma UserIsBlanked(u: Url)
    requires WellFormed(u)
    ensures RedactUserinfo(Front(u)) == Front(Blank(u))
  {
    UserinfoAfterScheme(u.scheme, RenderUser(u.user) + u.site);
    TailIsBlanked(u.user, u.site);
  }

  /* ---- the trailing punctuation ---- */

  lemma {:induction false} TrimmedIsPunctuation(s: string, i: nat)
    requires |TrimPunctuation(s)| <= i < |s|
    ensures Punctuation(s[i])
  {
    if i < |s| - 1 {
      TrimmedIsPunctuation(s[..|s| - 1], i);
    }
  }

  lemma TrimStopsAtScheme(scheme: string, tail: string)
    ensures |TrimPunctuation(Head(scheme) + tail)| >= |Head(scheme)|
  {
    var raw := Head(scheme) + tail;
    assert raw[|scheme| + 2] == '/';
    if |TrimPunctuation(raw)| <= |scheme| + 2 {
      TrimmedIsPunctuation(raw, |scheme| + 2);
      assert false;
    }
  }

  lemma SuffixHoldsNoMark(raw: string)
    ensures var suffix := raw[|TrimPunctuation(raw)|..]; '/' !in suffix && '@' !in suffix
  {
    var n := |TrimPunctuation(raw)|;
    forall i | n <= i < |raw| ensures raw[i] != '/' && raw[i] != '@' {
      TrimmedIsPunctuation(raw, i);
    }
  }

  lemma CutInTail(head: string, tail: string, n: nat)
    requires |head| <= n <= |head + tail|
    ensures (head + tail)[..n] == head + tail[..n - |head|]
    ensures (head + tail)[n..] == tail[n - |head|..]
    ensures tail == tail[..n - |head|] + tail[n - |head|..]
  {}

  /** Trimming punctuation first and putting it back does not change what happens to the user. */
  lemma TrimmingIsHarmless(scheme: string, tail: string)
    requires ':' !in scheme
    ensures var raw := Head(scheme) + tail; var url := TrimPunctuation(raw);
            RedactUserinfo(url) + raw[|url|..] == RedactUserinfo(raw)
  {
    var head := Head(scheme);
    var raw := head + tail;
    var url := TrimPunctuation(raw);
    TrimStopsAtScheme(scheme, tail);
    SuffixHoldsNoMark(raw);
    CutInTail(head, tail, |url|);
    assert url == raw[..|url|];
    var cut, suffix := tail[..|url| - |head|], raw[|url|..];
    UserinfoAfterScheme(scheme, cut);
    UserinfoAfterScheme(scheme, tail);
    SuffixKeepsTail(cut, suffix);
    Regroup(head, RedactTail(cut), suffix);
  }

  lemma SuffixKeepsTail(cut: string, suffix: string)
    requires '/' !in suffix && '@' !in suffix
    ensures RedactTail(cut + suffix) == RedactTail(cut) + suffix
  {
    var slash, at := IndexOf(cut, '/'), UserEnd(cut);
    if slash < |cut| {
      SuffixAfterPath(cut, suffix);
    } else if at < |cut| {
      SuffixAfterUser(cut, suffix);
    } else {
      SuffixAfterNoUser(cut, suffix);
    }
    if at < slash {
      DropWithin(cut, suffix, at);
      Regroup(BLANK, cut[at..], suffix);
    }
  }

  lemma DropWithin(a: string, b: string, n: nat)
    requires n <= |a|
    ensures (a + b)[n..] == a[n..] + b
  {}

  lemma SuffixAfterPath(cut: string, suffix: string)
    requires IndexOf(cut, '/') < |cut|
    ensures IndexOf(cut + suffix, '/') == IndexOf(cut, '/') && UserEnd(cut + suffix) == UserEnd(cut)
  {
    var slash := IndexOf(cut, '/');
    assert cut + suffix == cut[..slash] + ['/'] + (cut[slash + 1..] + suffix);
    IndexOfFirst(cut[..slash], cut[slash + 1..] + suffix, '/');
    assert (cut + suffix)[..slash] == cut[..slash];
  }

  lemma SuffixHoldsNoSlash(cut: string, suffix: string)
    requires IndexOf(cut, '/') == |cut| && '/' !in suffix
    ensures IndexOf(cut + suffix, '/') == |cut + suffix|
    ensures cut[..|cut|] == cut && (cut + suffix)[..|cut + suffix|] == cut + suffix
  {
    assert cut[..|cut|] == cut;
    IndexOfNone(cut + suffix, '/');
  }

  lemma SuffixAfterUser(cut: string, suffix: string)
    requires IndexOf(cut, '/') == |cut| && '/' !in suffix && '@' !in suffix && UserEnd(cut) < |cut|
    ensures IndexOf(cut + suffix, '/') == |cut + suffix| && UserEnd(cut + suffix) == UserEnd(cut)
  {
    SuffixHoldsNoSlash(cut, suffix);
    LastIndexBefore(cut, suffix, '@');
  }

  lemma {:induction false} LastIndexBefore(cut: string, suffix: string, c: char)
    requires LastIndexOf(cut, c) < |cut| && c !in suffix
    ensures LastIndexOf(cut + suffix, c) == LastIndexOf(cut, c)
  {
    if suffix == "" {
      assert cut + suffix == cut;
    } else {
      var s := cut + suffix;
      assert s[|s| - 1] == suffix[|suffix| - 1] != c;
      assert s[..|s| - 1] == cut + suffix[..|suffix| - 1];
      LastIndexBefore(cut, suffix[..|suffix| - 1], c);
    }
  }

  lemma SuffixAfterNoUser(cut: string, suffix: string)
    requires IndexOf(cut, '/') == |cut| && '/' !in suffix && '@' !in suffix && UserEnd(cut) == |cut|
    ensures IndexOf(cut + suffix, '/') == |cut + suffix| == UserEnd(cut + suffix)
  {
    SuffixHoldsNoSlash(cut, suffix);
    assert '@' !in cut + suffix;
  }

  /* ---- one URL ---- */

  lemma CutAt(a: string, mark: char, rest: Option<string>)
    requires mark !in a
    ensures var s := a + (if rest.None? then "" else [mark] + rest.value);
            Before(s, mark) == a && After(s, mark) == rest
  {
    if rest.Some? {
      var s := a + [mark] + rest.value;
      assert s == a + ([mark] + rest.value);
      IndexOfFirst(a, rest.value, mark);
    } else {
      assert a + "" == a;
      IndexOfNone(a, mark);
    }
  }

  function ParamsBody(ps: Option<seq<Param>>): Option<string>
    requires ps.Some? ==> ps.value != []
  {
    if ps.None? then None else Some(Join(ParamTexts(ps.value), '&'))
  }

  lemma PartsAreCut(u: Url)
    requires WellFormed(u)
    ensures var raw := Render(u); var rest := Before(raw, '#');
            && After(raw, '#') == ParamsBody(u.fragment)
            && Before(rest, '?') == Front(u)
            && After(rest, '?') == ParamsBody(u.query)
  {
    var front := Front(u);
    assert '?' !in front && '#' !in front;
    var rest := front + RenderParams('?', u.query);
    if u.query.Some? {
      JoinFree(ParamTexts(u.query.value), '&', '#');
    }
    assert '#' !in rest;
    CutAt(rest, '#', ParamsBody(u.fragment));
    CutAt(front, '?', ParamsBody(u.query));
    assert Render(u) == rest + RenderParams('#', u.fragment);
  }

  lemma PartIsBlanked(mark: char, ps: Option<seq<Param>>)
    requires ParamsOk(ps)
    ensures Part(mark, ParamsBody(ps)) == RenderParams(mark, BlankPart(ps))
  {
    if ps.Some? {
      ParamsAreBlanked(ps.value);
    }
  }

  lemma NoMarks(u: Url)
    requires WellFormed(u)
    ensures '?' !in Front(u) && '#' !in Front(u)
  {}

  lemma UnmarkedIsUserinfo(scheme: string, tail: string)
    requires ':' !in scheme
    requires var raw := Head(scheme) + tail; '?' !in raw && '#' !in raw
    ensures var raw := Head(scheme) + tail; RedactUrl(raw) == RedactUserinfo(raw)
  {
    var raw := Head(scheme) + tail;
    var url := TrimPunctuation(raw);
    assert url == raw[..|url|];
    assert url + "" == url;
    CutAt(url, '#', None);
    CutAt(url, '?', None);
    TrimmingIsHarmless(scheme, tail);
    assert RedactUserinfo(url) + "" + "" == RedactUserinfo(url);
  }

  lemma NothingAppended(s: string)
    ensures s + "" + "" == s
  {}

  lemma PlainUrlIsBlanked(u: Url)
    requires WellFormed(u) && u.query.None? && u.fragment.None?
    ensures RedactUrl(Render(u)) == Render(Blank(u))
  {
    NoMarks(u);
    UserIsBlanked(u);
    UnmarkedIsUserinfo(u.scheme, RenderUser(u.user) + u.site);
    NothingAppended(Front(u));
    NothingAppended(Front(Blank(u)));
  }

  lemma MarkedUrlIsBlanked(u: Url)
    requires WellFormed(u) && (u.query.Some? || u.fragment.Some?)
    ensures RedactUrl(Render(u)) == Render(Blank(u))
  {
    var raw := Render(u);
    PartsAreCut(u);
    UserIsBlanked(u);
    PartIsBlanked('?', u.query);
    PartIsBlanked('#', u.fragment);
    assert raw[|Front(u)|] == if u.query.Some? then '?' else '#';
    assert raw[|raw|..] == "";
  }

  /** Redacting a URL is exactly blanking its user and its parameter values. */
  lemma RedactionBlanksTheParts(u: Url)
    requires WellFormed(u)
    ensures RedactUrl(Render(u)) == Render(Blank(u))
  {
    if u.query.None? && u.fragment.None? {
      PlainUrlIsBlanked(u);
    } else {
      MarkedUrlIsBlanked(u);
    }
  }

  /* ---- every URL has parts ---- */

  function ParseParam(text: string): Param {
    var i := IndexOf(text, '=');
    if i == |text| then Bare(text) else Named(text[..i], text[i + 1..])
  }

  function ParseEach(texts: seq<string>): (r: seq<Param>)
    ensures |r| == |texts| && forall i :: 0 <= i < |r| ==> r[i] == ParseParam(texts[i])
  {
    if texts == [] then [] else [ParseParam(texts[0])] + ParseEach(texts[1..])
  }

  function ParsePart(body: Option<string>): Option<seq<Param>> {
    if body.None? then None else Some(ParseEach(Split(body.value, '&')))
  }

  /** The parts of a matched URL, given its scheme and what follows "://". */
  function Parse(scheme: string, tail: string): Url {
    var rest := Before(tail, '#');
    var front := Before(rest, '?');
    Url(scheme, ParseUser(front), ParseSite(front), ParsePart(After(rest, '?')), ParsePart(After(tail, '#')))
  }

  lemma ParamReads(text: string)
    requires '&' !in text
    ensures ParamOk(ParseParam(text)) && ParamText(ParseParam(text)) == text
  {
    var at := IndexOf(text, '=');
    if at < |text| {
      assert text == text[..at] + "=" + text[at + 1..];
    }
  }

  lemma {:induction false} EachReads(texts: seq<string>)
    requires Free(texts, '&')
    ensures forall i :: 0 <= i < |texts| ==> ParamOk(ParseEach(texts)[i])
    ensures ParamTexts(ParseEach(texts)) == texts
  {
    if texts != [] {
      ParamReads(texts[0]);
      EachReads(texts[1..]);
    }
  }

  lemma ParsePartReads(body: Option<string>)
    ensures ParamsOk(ParsePart(body))
    ensures ParamsBody(ParsePart(body)) == body
  {
    if body.Some? {
      SplitIsFree(body.value, '&');
      JoinSplit(body.value, '&');
      EachReads(Split(body.value, '&'));
    }
  }

  lemma {:induction false} JoinHolds(parts: seq<string>, sep: char, i: nat, c: char)
    requires i < |parts| && c in parts[i]
    ensures c in Join(parts, sep)
  {
    if i > 0 {
      JoinHolds(parts[1..], sep, i - 1, c);
    }
  }

  lemma CutJoins(s: string, mark: char)
    ensures s == Before(s, mark) + (if After(s, mark).None? then "" else [mark] + After(s, mark).value)
  {
    var i := IndexOf(s, mark);
    if i < |s| {
      assert s == s[..i] + ([mark] + s[i + 1..]);
    }
  }

  function ParseUser(tail: string): Option<string> {
    if UserEnd(tail) == IndexOf(tail, '/') then None else Some(tail[..UserEnd(tail)])
  }

  function ParseSite(tail: string): string {
    if UserEnd(tail) == IndexOf(tail, '/') then tail else tail[UserEnd(tail) + 1..]
  }

  /** What follows "://" is its user and its site again. */
  lemma TailReads(tail: string)
    ensures tail == RenderUser(ParseUser(tail)) + ParseSite(tail)
    ensures ParseUser(tail).Some? ==> '/' !in ParseUser(tail).value
    ensures '@' !in Before(ParseSite(tail), '/')
  {
    var slash, at := IndexOf(tail, '/'), UserEnd(tail);
    if at < slash {
      UserReads(tail);
    } else {
      assert "" + tail == tail;
    }
  }

  lemma UserReads(tail: string)
    requires UserEnd(tail) < IndexOf(tail, '/')
    ensures var at := UserEnd(tail); tail == tail[..at] + ['@'] + tail[at + 1..] && '/' !in tail[..at]
    ensures '@' !in Before(tail[UserEnd(tail) + 1..], '/')
  {
    var slash, at := IndexOf(tail, '/'), UserEnd(tail);
    var authority := tail[..slash];
    assert authority[at] == '@' && '@' !in authority[at + 1..];
    var head, site := tail[..at + 1], tail[at + 1..];
    Slices(tail, at, slash);
    assert '/' !in head;
    IndexOfPast(head, site, '/');
  }

  lemma Slices(tail: string, at: nat, slash: nat)
    requires at < slash <= |tail|
    ensures var head, site := tail[..at + 1], tail[at + 1..]; var authority := tail[..slash];
            && tail[..at] == authority[..at] && head == authority[..at + 1]
            && tail == head + site && site[..slash - at - 1] == authority[at + 1..]
            && head == tail[..at] + [tail[at]]
  {}

  lemma BodyLacks(ps: seq<Param>, c: char)
    requires ps != [] && c !in Join(ParamTexts(ps), '&')
    ensures forall i :: 0 <= i < |ps| ==> c !in ParamText(ps[i])
  {
    forall i | 0 <= i < |ps| ensures c !in ParamText(ps[i]) {
      if c in ParamTexts(ps)[i] {
        JoinHolds(ParamTexts(ps), '&', i, c);
      }
    }
  }

  lemma FrontIsClean(tail: string)
    requires '?' !in tail && '#' !in tail
    ensures ParseUser(tail).Some? ==> '?' !in ParseUser(tail).value && '#' !in ParseUser(tail).value
    ensures '?' !in ParseSite(tail) && '#' !in ParseSite(tail)
  {}

  /** Every text of the shape scheme://… is the rendering of well-formed parts. */
  lemma EveryUrlHasParts(scheme: string, tail: string)
    requires ':' !in scheme && '?' !in scheme && '#' !in scheme
    ensures WellFormed(Parse(scheme, tail)) && Render(Parse(scheme, tail)) == Head(scheme) + tail
  {
    var rest, u := Before(tail, '#'), Parse(scheme, tail);
    var front := Before(rest, '?');
    TailReads(front);
    FrontIsClean(front);
    ParsePartReads(After(rest, '?'));
    ParsePartReads(After(tail, '#'));
    CutJoins(rest, '?');
    CutJoins(tail, '#');
    if u.query.Some? {
      BodyLacks(u.query.value, '#');
    }
    Regroup(Head(scheme), front, RenderParams('?', u.query));
    Regroup(Head(scheme), rest, RenderParams('#', u.fragment));
  }

  /** Redacting one URL a second time changes nothing. */
  lemma RedactUrlTwice(scheme: string, tail: string)
    requires ':' !in scheme && '?' !in scheme && '#' !in scheme
    ensures var raw := Head(scheme) + tail; RedactUrl(RedactUrl(raw)) == RedactUrl(raw)
  {
    EveryUrlHasParts(scheme, tail);
    var u := Parse(scheme, tail);
    RedactionBlanksTheParts(u);
    BlankIsWellFormed(u);
    RedactionBlanksTheParts(Blank(u));
  }
}
