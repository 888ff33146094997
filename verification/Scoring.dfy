/**
 The benchmark's scores. `clean` stands for the lower-casing and the removal of punctuation
 and articles; everything after it is modelled. A contained gold answer is proved to be a
 contiguous run of whole tokens, which ties the two answer metrics together over a report.
 */
module Scoring {
  import opened Prelude
  import opened Text

  /* ---- normalised text ---- */

  /** What str.split takes for white space: unicode.IsSpace and the four separator controls. */
  predicate IsBlank(c: char) {
    IsSpace(c) || 0x1C <= c as int <= 0x1F
  }

  function FirstWord(s: string): (n: nat)
    ensures n <= |s|
  {
    if s == "" || IsBlank(s[0]) then 0 else 1 + FirstWord(s[1..])
  }

  /** str.split() with no argument. */
  function Fields(s: string): seq<string>
    decreases |s|
  {
    if s == "" then []
    else if IsBlank(s[0]) then Fields(s[1..])
    else [s[..FirstWord(s)]] + Fields(s[FirstWord(s)..])
  }

  /** " ".join of any number of tokens. */
  function Spaced(tokens: seq<string>): string {
    if tokens == [] then "" else Join(tokens, ' ')
  }

  /** normalize. */
  function Normalize(text: string, clean: string -> string): string {
    Spaced(Fields(clean(text)))
  }

  predicate IsToken(t: string) {
    t != "" && forall i :: 0 <= i < |t| ==> !IsBlank(t[i])
  }

  predicate Tokens(ts: seq<string>) {
    forall i :: 0 <= i < |ts| ==> IsToken(ts[i])
  }

  lemma {:induction false} FirstWordIs(s: string)
    ensures forall i :: 0 <= i < FirstWord(s) ==> !IsBlank(s[i])
    ensures FirstWord(s) < |s| ==> IsBlank(s[FirstWord(s)])
  {
    if s != "" && !IsBlank(s[0]) {
      FirstWordIs(s[1..]);
    }
  }

  lemma {:induction false} FieldsAreTokens(s: string)
    ensures Tokens(Fields(s))
    decreases |s|
  {
    if s != "" {
      if IsBlank(s[0]) {
        FieldsAreTokens(s[1..]);
      } else {
        FirstWordIs(s);
        FieldsAreTokens(s[FirstWord(s)..]);
      }
    }
  }

  lemma {:induction false} WordThenSpace(t: string, rest: string)
    requires IsToken(t) && (rest == "" || IsBlank(rest[0]))
    ensures FirstWord(t + rest) == |t|
  {
    assert (t + rest)[1..] == t[1..] + rest;
    if |t| > 1 {
      WordThenSpace(t[1..], rest);
    } else {
      assert t[1..] + rest == rest;
    }
  }

  /** Splitting a normalised text gives back its tokens. */
  lemma {:induction false} FieldsOfSpaced(ts: seq<string>)
    requires Tokens(ts)
    ensures Fields(Spaced(ts)) == ts
  {
    if ts != [] {
      var rest := if |ts| == 1 then "" else [' '] + Spaced(ts[1..]);
      assert Spaced(ts) == ts[0] + rest;
      assert IsToken(ts[0]);
      WordThenSpace(ts[0], rest);
      assert (ts[0] + rest)[..|ts[0]|] == ts[0] && (ts[0] + rest)[|ts[0]|..] == rest;
      FieldsOfSpaced(ts[1..]);
      if |ts| > 1 {
        assert rest[1..] == Spaced(ts[1..]);
      }
    }
  }

  lemma FirstFieldIs(t: string, rest: string)
    requires IsToken(t) && (rest == "" || IsBlank(rest[0]))
    ensures Fields(t + rest) == [t] + Fields(rest)
  {
    WordThenSpace(t, rest);
    assert (t + rest)[..|t|] == t && (t + rest)[|t|..] == rest;
    assert (t + rest)[0] == t[0];
  }

  /**
   Splitting, piece by piece: nothing gives nothing, a blank in front is passed over, and a
   run without blanks that ends the text or comes before a blank is the first piece.
   */
  lemma FieldsAre(t: string, c: char, rest: string)
    requires t != "" && forall i :: 0 <= i < |t| ==> !IsBlank(t[i])
    requires IsBlank(c)
    ensures Fields("") == [] && Fields([c] + rest) == Fields(rest)
    ensures Fields(t) == [t] && Fields(t + [c] + rest) == [t] + Fields(rest)
  {
    assert ([c] + rest)[1..] == rest;
    FirstFieldIs(t, "");
    assert t + "" == t;
    FirstFieldIs(t, [c] + rest);
    assert t + [c] + rest == t + ([c] + rest);
  }

  /* ---- whole tokens ---- */

  /** The text of the tokens with a space before, between and after them. */
  function Pad(ts: seq<string>): string {
    if ts == [] then " " else " " + ts[0] + Pad(ts[1..])
  }

  lemma {:induction false} PadIsSpaced(ts: seq<string>)
    requires ts != []
    ensures " " + Spaced(ts) + " " == Pad(ts)
  {
    if |ts| > 1 {
      PadIsSpaced(ts[1..]);
      assert Spaced(ts) == ts[0] + [' '] + Spaced(ts[1..]);
    } else {
      assert Pad(ts[1..]) == " ";
    }
  }

  predicate OccursAt(hay: string, needle: string, i: int) {
    0 <= i <= |hay| - |needle| && hay[i..i + |needle|] == needle
  }

  /** Python's `in`. */
  predicate Within(needle: string, hay: string) {
    exists i | 0 <= i <= |hay| :: OccursAt(hay, needle, i)
  }

  predicate RunAt(a: seq<string>, g: seq<string>, j: int) {
    0 <= j <= |a| - |g| && a[j..j + |g|] == g
  }

  lemma {:induction false} PadStartsWithSpace(ts: seq<string>)
    ensures |Pad(ts)| > 0 && Pad(ts)[0] == ' '
  {}

  lemma FirstTokensAgree(s: string, t: string, x: string, y: string)
    requires IsToken(s) && IsToken(t) && |x| > 0 && |y| > 0 && x[0] == ' ' && y[0] == ' '
    requires " " + t + y <= " " + s + x
    ensures s == t && y <= x
  {
    var p, q := " " + t + y, " " + s + x;
    assert forall i :: 0 <= i < |p| ==> p[i] == q[i];
    assert q[1 + |s|] == ' ' && q[1 + |t|] == p[1 + |t|] == ' ';
    assert forall i :: 0 <= i < |s| ==> q[1 + i] == s[i] != ' ';
    assert forall i :: 0 <= i < |t| ==> p[1 + i] == t[i] != ' ';
    assert |s| == |t|;
    assert forall i :: 0 <= i < |s| ==> s[i] == q[1 + i] && t[i] == p[1 + i];
    assert forall i :: 0 <= i < |y| ==> y[i] == p[1 + |s| + i] && x[i] == q[1 + |s| + i];
  }

  /** A padded prefix is a prefix of tokens. */
  lemma {:induction false} PrefixOfPadded(a: seq<string>, g: seq<string>)
    requires Tokens(a) && Tokens(g) && Pad(g) <= Pad(a)
    ensures g <= a
  {
    if g != [] {
      assert IsToken(g[0]);
      PadStartsWithSpace(g[1..]);
      assert |Pad(g)| > 1;
      assert a != [];
      assert IsToken(a[0]);
      PadStartsWithSpace(a[1..]);
      FirstTokensAgree(a[0], g[0], Pad(a[1..]), Pad(g[1..]));
      PrefixOfPadded(a[1..], g[1..]);
      assert g == [g[0]] + g[1..] && a == [a[0]] + a[1..];
    }
  }

  /** A padded substring is a contiguous run of whole tokens. */
  lemma {:induction false} SubstringIsARun(a: seq<string>, g: seq<string>, i: int) returns (j: int)
    requires Tokens(a) && Tokens(g) && g != [] && OccursAt(Pad(a), Pad(g), i)
    ensures RunAt(a, g, j)
  {
    var hay, needle := Pad(a), Pad(g);
    PadStartsWithSpace(g);
    assert hay[i] == needle[0] == ' ';
    assert IsToken(g[0]) && |needle| > 1;
    if i == 0 {
      assert hay[0..|needle|] == hay[..|needle|];
      PrefixOfPadded(a, g);
      j := 0;
    } else {
      assert a != [] && IsToken(a[0]);
      var rest := Pad(a[1..]);
      var skip := 1 + |a[0]|;
      assert hay == " " + a[0] + rest;
      assert forall k :: 0 <= k < |a[0]| ==> hay[1 + k] == a[0][k] != ' ';
      assert i >= skip;
      assert hay[skip..] == rest;
      assert rest[i - skip..i - skip + |needle|] == hay[i..i + |needle|];
      var k := SubstringIsARun(a[1..], g, i - skip);
      j := k + 1;
      assert a[j..j + |g|] == a[1..][k..k + |g|];
    }
  }

  lemma {:induction false} PadSplits(a: seq<string>, b: seq<string>)
    ensures exists front: string :: Pad(a + b) == front + Pad(b)
  {
    if a == [] {
      assert a + b == b && Pad(b) == "" + Pad(b);
    } else {
      PadSplits(a[1..], b);
      assert (a + b)[1..] == a[1..] + b;
      var front: string :| Pad(a[1..] + b) == front + Pad(b);
      assert Pad(a + b) == (" " + a[0] + front) + Pad(b);
    }
  }

  lemma {:induction false} PadPrefix(g: seq<string>, c: seq<string>)
    ensures Pad(g) <= Pad(g + c)
  {
    if g == [] {
      assert g + c == c;
      PadStartsWithSpace(c);
    } else {
      assert (g + c)[1..] == g[1..] + c;
      PadPrefix(g[1..], c);
    }
  }

  /** A run of tokens is a padded substring. */
  lemma RunIsASubstring(a: seq<string>, g: seq<string>, j: nat)
    requires RunAt(a, g, j)
    ensures Within(Pad(g), Pad(a))
  {
    var b, c := a[..j], a[j + |g|..];
    assert a == b + (g + c);
    PadSplits(b, g + c);
    PadPrefix(g, c);
    var front: string :| Pad(a) == front + Pad(g + c);
    assert OccursAt(Pad(a), Pad(g), |front|);
  }

  /* ---- the two answer metrics ---- */

  function AnswerTokens(answer: string, clean: string -> string): seq<string> {
    Fields(clean(answer))
  }

  predicate HoldsGold(answer: string, gold: string, clean: string -> string) {
    Normalize(gold, clean) != "" && Within(" " + Normalize(gold, clean) + " ", " " + Normalize(answer, clean) + " ")
  }

  /** contains_gold. */
  predicate ContainsGold(answer: string, golds: seq<string>, clean: string -> string) {
    exists k :: 0 <= k < |golds| && HoldsGold(answer, golds[k], clean)
  }

  lemma EmptyAnswer(g: seq<string>)
    requires Tokens(g) && g != []
    ensures !Within(Pad(g), "  ")
  {
    assert IsToken(g[0]);
    PadStartsWithSpace(g[1..]);
    assert |Pad(g)| >= 3;
  }

  lemma NonEmptyNormal(ts: seq<string>)
    requires Tokens(ts)
    ensures Spaced(ts) == "" <==> ts == []
  {
    if ts != [] {
      assert IsToken(ts[0]);
      assert |Spaced(ts)| >= |ts[0]|;
    }
  }

  /** A gold answer is contained exactly when its tokens are a run of the answer's tokens. */
  lemma ContainedIffRun(answer: string, gold: string, clean: string -> string)
    ensures HoldsGold(answer, gold, clean) <==>
              var a, g := AnswerTokens(answer, clean), AnswerTokens(gold, clean);
              g != [] && exists j: int :: RunAt(a, g, j)
  {
    var a, g := AnswerTokens(answer, clean), AnswerTokens(gold, clean);
    FieldsAreTokens(clean(answer));
    FieldsAreTokens(clean(gold));
    NonEmptyNormal(g);
    if g != [] {
      PadIsSpaced(g);
      if a == [] {
        EmptyAnswer(g);
        assert " " + Normalize(answer, clean) + " " == "  ";
      } else {
        PadIsSpaced(a);
        if HoldsGold(answer, gold, clean) {
          var i: int :| OccursAt(Pad(a), Pad(g), i);
          var j := SubstringIsARun(a, g, i);
        }
        if j: int :| RunAt(a, g, j) {
          RunIsASubstring(a, g, j);
        }
      }
    }
  }

  /** The recall half of _token_scores: Counter intersection is multiset intersection. */
  function Recall(a: seq<string>, g: seq<string>): real {
    if a == [] || g == [] then 0.0
    else |multiset(a) * multiset(g)| as real / |g| as real
  }

  /** The tokens a text is split into once more, as _token_scores does with normalised text. */
  function GoldRecall(answer: string, gold: string, clean: string -> string): real {
    Recall(Fields(Normalize(answer, clean)), Fields(Normalize(gold, clean)))
  }

  function Recalls(answer: string, golds: seq<string>, clean: string -> string): seq<real> {
    if golds == [] then [] else [GoldRecall(answer, golds[0], clean)] + Recalls(answer, golds[1..], clean)
  }

  function Largest(rs: seq<real>): (m: real)
    requires rs != []
    ensures m in rs && forall k :: 0 <= k < |rs| ==> rs[k] <= m
  {
    if |rs| == 1 then rs[0]
    else
      var m := Largest(rs[1..]);
      assert forall k :: 1 <= k < |rs| ==> rs[k] == rs[1..][k - 1];
      if m < rs[0] then rs[0] else m
  }

  /** token_recall. */
  function TokenRecall(answer: string, golds: seq<string>, clean: string -> string): real {
    if golds == [] then 0.0 else Largest(Recalls(answer, golds, clean))
  }

  lemma NormalizedTokens(text: string, clean: string -> string)
    ensures Fields(Normalize(text, clean)) == Fields(clean(text))
  {
    FieldsAreTokens(clean(text));
    FieldsOfSpaced(Fields(clean(text)));
  }

  /** The number of tokens of `g` found in `a`, each as often as both have it, over all of `g`. */
  ghost predicate ShareFound(share: real, a: seq<string>, g: seq<string>) {
    if a == [] || g == [] then share == 0.0 else share * |g| as real == |multiset(a) * multiset(g)| as real
  }

  lemma RecallIs(a: seq<string>, g: seq<string>)
    ensures ShareFound(Recall(a, g), a, g)
  {
    if a != [] && g != [] {
      TimesBack(|multiset(a) * multiset(g)| as real, |g| as real);
    }
  }

  lemma GoldRecallIs(answer: string, gold: string, clean: string -> string)
    ensures GoldRecall(answer, gold, clean) == Recall(Fields(clean(answer)), Fields(clean(gold)))
  {
    NormalizedTokens(answer, clean);
    NormalizedTokens(gold, clean);
  }

  /** A recall is the share of the gold answer's tokens found in the answer. */
  lemma RecallIsTheShareFound(answer: string, gold: string, clean: string -> string)
    ensures ShareFound(GoldRecall(answer, gold, clean), Fields(clean(answer)), Fields(clean(gold)))
  {
    GoldRecallIs(answer, gold, clean);
    RecallIs(Fields(clean(answer)), Fields(clean(gold)));
  }

  lemma TimesBack(n: real, m: real)
    requires m != 0.0
    ensures n / m * m == n
  {}

  lemma RecallBounds(a: seq<string>, g: seq<string>)
    ensures 0.0 <= Recall(a, g) <= 1.0
    ensures Recall(a, g) == 1.0 <==> a != [] && g != [] && multiset(g) <= multiset(a)
  {
    if a != [] && g != [] {
      var common := multiset(a) * multiset(g);
      var n, m := |common|, |g|;
      assert common + (multiset(g) - common) == multiset(g);
      assert n <= m;
      Share(n, m);
      assert |multiset(g) - common| == 0 ==> multiset(g) - common == multiset{};
      assert multiset(g) <= multiset(a) ==> common == multiset(g);
    }
  }

  lemma Share(n: nat, m: nat)
    requires n <= m && m > 0
    ensures 0.0 <= n as real / m as real <= 1.0
    ensures n as real / m as real == 1.0 <==> n == m
  {}

  lemma RunIsIncluded(a: seq<string>, g: seq<string>, j: nat)
    requires RunAt(a, g, j)
    ensures multiset(g) <= multiset(a)
  {
    assert a == a[..j] + g + a[j + |g|..];
  }

  /** An answer that contains a gold answer has token recall one. */
  lemma ContainedMeansFullRecall(answer: string, golds: seq<string>, clean: string -> string)
    requires ContainsGold(answer, golds, clean)
    ensures TokenRecall(answer, golds, clean) == 1.0
  {
    var k :| 0 <= k < |golds| && HoldsGold(answer, golds[k], clean);
    FullRecallOfOne(answer, golds[k], clean);
    RecallIsAShare(answer, golds, clean);
  }

  lemma FullRecallOfOne(answer: string, gold: string, clean: string -> string)
    requires HoldsGold(answer, gold, clean)
    ensures GoldRecall(answer, gold, clean) == 1.0
  {
    ContainedIffRun(answer, gold, clean);
    var a, g := AnswerTokens(answer, clean), AnswerTokens(gold, clean);
    FieldsAreTokens(clean(answer));
    FieldsAreTokens(clean(gold));
    FieldsOfSpaced(a);
    FieldsOfSpaced(g);
    var j :| RunAt(a, g, j);
    RunIsIncluded(a, g, j);
    assert a != [];
    RecallBounds(a, g);
  }

  lemma {:induction false} RecallsAre(answer: string, golds: seq<string>, clean: string -> string)
    ensures var rs := Recalls(answer, golds, clean);
            |rs| == |golds| && forall k :: 0 <= k < |golds| ==>
                rs[k] == GoldRecall(answer, golds[k], clean) && 0.0 <= rs[k] <= 1.0
  {
    if golds != [] {
      RecallBounds(Fields(Normalize(answer, clean)), Fields(Normalize(golds[0], clean)));
      RecallsAre(answer, golds[1..], clean);
    }
  }

  /** The token recall is that of some gold answer and no less than that of any; without one it is zero. */
  lemma RecallIsTheBest(answer: string, golds: seq<string>, clean: string -> string)
    ensures golds == [] ==> TokenRecall(answer, golds, clean) == 0.0
    ensures golds != [] ==>
              exists k :: 0 <= k < |golds| && TokenRecall(answer, golds, clean) == GoldRecall(answer, golds[k], clean)
    ensures forall k :: 0 <= k < |golds| ==> GoldRecall(answer, golds[k], clean) <= TokenRecall(answer, golds, clean)
  {
    RecallsAre(answer, golds, clean);
    if golds != [] {
      var rs := Recalls(answer, golds, clean);
      var k :| 0 <= k < |rs| && rs[k] == Largest(rs);
    }
  }

  lemma RecallIsAShare(answer: string, golds: seq<string>, clean: string -> string)
    ensures 0.0 <= TokenRecall(answer, golds, clean) <= 1.0
    ensures forall k :: 0 <= k < |golds| ==> GoldRecall(answer, golds[k], clean) <= TokenRecall(answer, golds, clean)
  {
    RecallsAre(answer, golds, clean);
  }
}
