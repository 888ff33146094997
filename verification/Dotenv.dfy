/**
 The dotenv file: saveEnvLocalKey upserts one assignment, dotenvHasCredential looks for
 one. The text is a sequence of lines throughout; Text.Split and Text.Join are the bridge.
 */
module Dotenv {
  import opened Prelude
  import opened Text

  /** The lines saveEnvLocalKey drops before it appends its own. */
  predicate Assigns(line: string, key: string) {
    key + "=" <= line || "export " + key + "=" <= line
  }

  function Kept(lines: seq<string>, key: string): seq<string> {
    if lines == [] then []
    else (if Assigns(lines[0], key) then [] else [lines[0]]) + Kept(lines[1..], key)
  }

  function DropBlankTail(lines: seq<string>): seq<string> {
    if lines != [] && TrimSpace(lines[|lines| - 1]) == "" then DropBlankTail(lines[..|lines| - 1]) else lines
  }

  /** The lines of the file after a save, without the empty one after the final newline. */
  function SavedLines(existing: string, key: string, value: string): seq<string> {
    DropBlankTail(Kept(Split(existing, '\n'), key)) + [key + "=" + value]
  }

  function Saved(existing: string, key: string, value: string): string {
    Join(SavedLines(existing, key, value), '\n') + "\n"
  }

  lemma {:induction false} KeptAppend(lines: seq<string>, line: string, key: string)
    ensures Kept(lines + [line], key) == Kept(lines, key) + (if Assigns(line, key) then [] else [line])
  {
    if lines != [] {
      assert (lines + [line])[1..] == lines[1..] + [line];
      KeptAppend(lines[1..], line, key);
    }
  }

  /** saveEnvLocalKey: the two loops of the source build exactly the saved text. */
  method SaveEnvLocalKey(existing: string, key: string, value: string) returns (content: string)
    ensures content == Saved(existing, key, value)
  {
    var lines := Split(existing, '\n');
    var out: seq<string> := [];
    var i := 0;
    while i < |lines|
      invariant 0 <= i <= |lines| && out == Kept(lines[..i], key)
    {
      KeptAppend(lines[..i], lines[i], key);
      assert lines[..i] + [lines[i]] == lines[..i + 1];
      if !Assigns(lines[i], key) {
        out := out + [lines[i]];
      }
      i := i + 1;
    }
    assert lines[..|lines|] == lines;
    while |out| > 0 && TrimSpace(out[|out| - 1]) == ""
      invariant DropBlankTail(out) == DropBlankTail(Kept(lines, key))
      decreases |out|
    {
      out := out[..|out| - 1];
    }
    out := out + [key + "=" + value];
    content := Join(out, '\n') + "\n";
  }

  ghost predicate OneLine(s: string) {
    '\n' !in s
  }

  lemma {:induction false} KeptIsFree(lines: seq<string>, key: string)
    requires Free(lines, '\n')
    ensures Free(Kept(lines, key), '\n')
    ensures forall i :: 0 <= i < |Kept(lines, key)| ==> !Assigns(Kept(lines, key)[i], key)
  {
    if lines != [] {
      KeptIsFree(lines[1..], key);
    }
  }

  /** What is kept is the file less its assignments of the key, piece by piece, plain and exported ones alike. */
  lemma {:induction false} KeptIsTheRest(a: seq<string>, b: seq<string>, line: string, key: string)
    ensures Kept([], key) == [] && Kept(a + b, key) == Kept(a, key) + Kept(b, key)
    ensures Kept([line], key) == if key + "=" <= line || "export " + key + "=" <= line then [] else [line]
  {
    if a == [] {
      assert a + b == b;
    } else {
      assert (a + b)[1..] == a[1..] + b;
      KeptIsTheRest(a[1..], b, line, key);
    }
  }

  lemma {:induction false} DropBlankTailIsPrefix(lines: seq<string>)
    ensures DropBlankTail(lines) <= lines
    ensures forall i :: |DropBlankTail(lines)| <= i < |lines| ==> TrimSpace(lines[i]) == ""
    ensures DropBlankTail(DropBlankTail(lines)) == DropBlankTail(lines)
    ensures DropBlankTail(lines) != [] ==> TrimSpace(DropBlankTail(lines)[|DropBlankTail(lines)| - 1]) != ""
  {
    if lines != [] && TrimSpace(lines[|lines| - 1]) == "" {
      DropBlankTailIsPrefix(lines[..|lines| - 1]);
    }
  }

  lemma SavedLinesAreFree(existing: string, key: string, value: string)
    requires OneLine(key) && OneLine(value)
    ensures Free(SavedLines(existing, key, value), '\n')
  {
    SplitIsFree(existing, '\n');
    KeptIsFree(Split(existing, '\n'), key);
    DropBlankTailIsPrefix(Kept(Split(existing, '\n'), key));
  }

  lemma {:induction false} JoinTrailing(lines: seq<string>)
    requires |lines| > 0
    ensures Join(lines + [""], '\n') == Join(lines, '\n') + "\n"
  {
    if |lines| > 1 {
      assert (lines + [""])[1..] == lines[1..] + [""];
      JoinTrailing(lines[1..]);
    } else {
      assert (lines + [""])[1..] == [""];
    }
  }

  /** Reading a saved file back gives the saved lines and nothing else. */
  lemma ReadBack(existing: string, key: string, value: string)
    requires OneLine(key) && OneLine(value)
    ensures Split(Saved(existing, key, value), '\n') == SavedLines(existing, key, value) + [""]
  {
    var lines := SavedLines(existing, key, value);
    SavedLinesAreFree(existing, key, value);
    JoinTrailing(lines);
    SplitJoin(lines + [""], '\n');
  }

  lemma {:induction false} KeptAll(lines: seq<string>, key: string)
    requires forall i :: 0 <= i < |lines| ==> !Assigns(lines[i], key)
    ensures Kept(lines, key) == lines
  {
    if lines != [] {
      KeptAll(lines[1..], key);
    }
  }

  lemma KeptOfSaved(existing: string, key: string, value: string)
    requires OneLine(key) && OneLine(value)
    ensures Kept(Split(Saved(existing, key, value), '\n'), key)
            == DropBlankTail(Kept(Split(existing, '\n'), key)) + [""]
  {
    ReadBack(existing, key, value);
    var kept := DropBlankTail(Kept(Split(existing, '\n'), key));
    SplitIsFree(existing, '\n');
    KeptIsFree(Split(existing, '\n'), key);
    DropBlankTailIsPrefix(Kept(Split(existing, '\n'), key));
    KeptAll(kept, key);
    KeptAppend(kept, key + "=" + value, key);
    KeptAppend(kept + [key + "=" + value], "", key);
  }

  /** Saving twice is saving once, and the last save of a key decides its value. */
  lemma LastSaveWins(existing: string, key: string, value: string, newer: string)
    requires OneLine(key) && OneLine(value) && OneLine(newer)
    ensures Saved(Saved(existing, key, value), key, newer) == Saved(existing, key, newer)
  {
    KeptOfSaved(existing, key, value);
    var kept := DropBlankTail(Kept(Split(existing, '\n'), key));
    DropBlankTailIsPrefix(Kept(Split(existing, '\n'), key));
    assert (kept + [""])[..|kept + [""]| - 1] == kept;
    assert TrimSpace("") == "";
  }

  /**
   After a save, exactly one line assigns the key, and it is the last; the other lines are
   those of before, in order, up to blank lines at the end.
   */
  lemma SaveKeepsTheOtherLines(existing: string, key: string, value: string)
    requires OneLine(key) && OneLine(value)
    ensures
      var before := Kept(Split(existing, '\n'), key);
      var after := Split(Saved(existing, key, value), '\n');
      && |after| >= 2 && after[|after| - 2] == key + "=" + value && after[|after| - 1] == ""
      && after[..|after| - 2] <= before
      && (|after| > 2 ==> TrimSpace(after[|after| - 3]) != "")
      && (forall i :: |after| - 2 <= i < |before| ==> TrimSpace(before[i]) == "")
      && (forall i :: 0 <= i < |after| ==>
            (key + "=" <= after[i] || "export " + key + "=" <= after[i] <==> i == |after| - 2))
  {
    var before := Kept(Split(existing, '\n'), key);
    ReadBack(existing, key, value);
    SplitIsFree(existing, '\n');
    KeptIsFree(Split(existing, '\n'), key);
    DropBlankTailIsPrefix(before);
  }

  /* ---- saves of distinct keys ---- */

  /** A shell variable name, as far as this file cares. */
  ghost predicate KeyOk(key: string) {
    key != "" && forall i :: 0 <= i < |key| ==> key[i] != '=' && key[i] != '#' && !IsSpace(key[i])
  }

  /** The assignments of one key, in file order. */
  function Assignments(lines: seq<string>, key: string): seq<string> {
    if lines == [] then []
    else (if Assigns(lines[0], key) then [lines[0]] else []) + Assignments(lines[1..], key)
  }

  /** The key an assignment line names. */
  function NamedKey(line: string): string {
    var rest := if "export " <= line then line[7..] else line;
    rest[..IndexOf(rest, '=')]
  }

  lemma KeyBeforeEquals(rest: string, key: string)
    requires KeyOk(key) && key + "=" <= rest
    ensures rest[..IndexOf(rest, '=')] == key
  {
    var tail := rest[|key| + 1..];
    assert rest == key + ['='] + tail;
    IndexOfFirst(key, tail, '=');
  }

  lemma NoExport(line: string, key: string)
    requires KeyOk(key) && key + "=" <= line
    ensures !("export " <= line)
  {
    var i := if |key| <= 6 then |key| else 6;
    assert line[i] == (key + "=")[i];
    assert IsSpace(' ') && "export "[i] != line[i];
  }

  /** A line that assigns a key names that key and no other. */
  lemma AssignsNamedKey(line: string, key: string)
    requires KeyOk(key) && Assigns(line, key)
    ensures NamedKey(line) == key
  {
    if key + "=" <= line {
      NoExport(line, key);
      KeyBeforeEquals(line, key);
    } else {
      assert "export " + key + "=" == "export " + (key + "=");
      assert line[7..][..|key| + 1] == key + "=";
      KeyBeforeEquals(line[7..], key);
    }
  }

  lemma {:induction false} AssignmentsAppend(lines: seq<string>, more: seq<string>, key: string)
    ensures Assignments(lines + more, key) == Assignments(lines, key) + Assignments(more, key)
  {
    if lines == [] {
      assert lines + more == more;
    } else {
      assert (lines + more)[1..] == lines[1..] + more;
      AssignmentsAppend(lines[1..], more, key);
    }
  }

  lemma {:induction false} KeptKeepsOthers(lines: seq<string>, key: string, other: string)
    requires KeyOk(key) && KeyOk(other) && key != other
    ensures Assignments(Kept(lines, key), other) == Assignments(lines, other)
  {
    if lines != [] {
      KeptKeepsOthers(lines[1..], key, other);
      if Assigns(lines[0], key) {
        AssignsNamedKey(lines[0], key);
        if Assigns(lines[0], other) { AssignsNamedKey(lines[0], other); }
        assert Kept(lines, key) == Kept(lines[1..], key);
      } else {
        AssignmentsAppend([lines[0]], Kept(lines[1..], key), other);
        assert [lines[0]][1..] == [];
      }
    }
  }

  lemma {:induction false} BlankAssignsNothing(lines: seq<string>, key: string)
    requires KeyOk(key) && forall i :: 0 <= i < |lines| ==> TrimSpace(lines[i]) == ""
    ensures Assignments(lines, key) == []
  {
    if lines != [] {
      BlankAssignsNothing(lines[1..], key);
      if Assigns(lines[0], key) {
        NonBlank(lines[0]);
      }
    }
  }

  lemma {:induction false} NonBlank(s: string)
    requires s != "" && !IsSpace(s[0])
    ensures TrimSpace(s) != "" && TrimRight(s) <= s
  {
    TrimRightTail("", s);
    assert "" + s == s;
    TrimRightPrefix(s);
  }

  lemma DroppedAssignNothing(lines: seq<string>, other: string)
    requires KeyOk(other)
    ensures Assignments(DropBlankTail(lines), other) == Assignments(lines, other)
  {
    var kept := DropBlankTail(lines);
    DropBlankTailIsPrefix(lines);
    var tail := lines[|kept|..];
    assert lines == kept + tail;
    AssignmentsAppend(kept, tail, other);
    BlankAssignsNothing(tail, other);
  }

  lemma SavedLineAssignsNothing(key: string, value: string, other: string)
    requires KeyOk(key) && KeyOk(other) && key != other
    ensures Assignments([key + "=" + value, ""], other) == []
  {
    var line := key + "=" + value;
    assert Assigns(line, key);
    AssignsNamedKey(line, key);
    assert !Assigns(line, other) by {
      if Assigns(line, other) { AssignsNamedKey(line, other); }
    }
    assert !Assigns("", other);
    assert [""][1..] == [] && Assignments([""], other) == [];
    assert [line, ""][1..] == [""];
  }

  /** Saving one key leaves every assignment of another key as it was, in order. */
  lemma SavesOfDistinctKeysAreIndependent(existing: string, key: string, value: string, other: string)
    requires KeyOk(key) && KeyOk(other) && key != other && OneLine(value)
    ensures Assignments(Split(Saved(existing, key, value), '\n'), other) == Assignments(Split(existing, '\n'), other)
  {
    assert OneLine(key) by { assert IsSpace('\n'); }
    ReadBack(existing, key, value);
    var kept := DropBlankTail(Kept(Split(existing, '\n'), key));
    DroppedAssignNothing(Kept(Split(existing, '\n'), key), other);
    KeptKeepsOthers(Split(existing, '\n'), key, other);
    SavedLineAssignsNothing(key, value, other);
    AssignmentsAppend(kept, [key + "=" + value, ""], other);
    assert kept + [key + "=" + value] + [""] == kept + [key + "=" + value, ""];
  }

  /* ---- dotenvHasCredential ---- */

  function TrimQuotesLeft(s: string): string {
    if s != "" && (s[0] == '"' || s[0] == '\'') then TrimQuotesLeft(s[1..]) else s
  }

  /** strings.Trim with a quote set leaves nothing exactly when every character is a quote. */
  predicate OnlyQuotes(s: string) {
    TrimQuotesLeft(s) == ""
  }

  /** Whether a line, after its own trimming, gives one of the keys a value. */
  predicate Hits(line: string, refs: set<string>) {
    var t := TrimSpace(line);
    && t != "" && t[0] != '#'
    && var body := if "export " <= t then t[7..] else t;
       var eq := IndexOf(body, '=');
       eq < |body| && TrimSpace(body[..eq]) in refs && !OnlyQuotes(TrimSpace(body[eq + 1..]))
  }

  lemma {:induction false} OnlyQuotesIs(s: string)
    ensures OnlyQuotes(s) <==> forall i :: 0 <= i < |s| ==> s[i] == '"' || s[i] == '\''
  {
    if s != "" && (s[0] == '"' || s[0] == '\'') {
      OnlyQuotesIs(s[1..]);
      assert forall i :: 0 < i < |s| ==> s[i] == s[1..][i - 1];
    }
  }

  /** The trimmed name is one of the keys, and the trimmed value holds something else than quotes. */
  ghost predicate IsCredential(name: string, value: string, refs: set<string>) {
    && '=' !in name && TrimSpace(name) in refs
    && exists i :: 0 <= i < |TrimSpace(value)| && TrimSpace(value)[i] != '"' && TrimSpace(value)[i] != '\''
  }

  ghost predicate GivesValue(body: string, refs: set<string>) {
    exists name: string, value: string :: body == name + ['='] + value && IsCredential(name, value, refs)
  }

  lemma CredentialIs(name: string, value: string, refs: set<string>)
    requires '=' !in name
    ensures IsCredential(name, value, refs) <==> TrimSpace(name) in refs && !OnlyQuotes(TrimSpace(value))
  {
    OnlyQuotesIs(TrimSpace(value));
  }

  predicate Reads(body: string, refs: set<string>) {
    var eq := IndexOf(body, '=');
    eq < |body| && TrimSpace(body[..eq]) in refs && !OnlyQuotes(TrimSpace(body[eq + 1..]))
  }

  lemma ReadsGives(body: string, refs: set<string>)
    requires Reads(body, refs)
    ensures GivesValue(body, refs)
  {
    var eq := IndexOf(body, '=');
    CredentialIs(body[..eq], body[eq + 1..], refs);
    assert body == body[..eq] + ['='] + body[eq + 1..];
  }

  lemma GivesReads(name: string, value: string, refs: set<string>)
    requires IsCredential(name, value, refs)
    ensures Reads(name + ['='] + value, refs)
  {
    CutAtEquals(name, value);
    CredentialIs(name, value, refs);
  }

  lemma GivesIff(body: string, refs: set<string>)
    ensures GivesValue(body, refs) <==> Reads(body, refs)
  {
    if Reads(body, refs) {
      ReadsGives(body, refs);
    } else if GivesValue(body, refs) {
      var name: string, value: string :| body == name + ['='] + value && IsCredential(name, value, refs);
      GivesReads(name, value, refs);
    }
  }

  /**
   A line gives one of the keys a value exactly when, its own blanks off, it is no comment
   and reads `name=value`, with or without `export ` in front.
   */
  lemma HitsIff(line: string, refs: set<string>)
    ensures Hits(line, refs) <==>
            var t := TrimSpace(line);
            t != "" && t[0] != '#' && GivesValue(if "export " <= t then t[7..] else t, refs)
  {
    var t := TrimSpace(line);
    GivesIff(if "export " <= t then t[7..] else t, refs);
  }

  lemma CutAtEquals(name: string, value: string)
    requires '=' !in name
    ensures var body := name + ['='] + value;
            IndexOf(body, '=') == |name| && body[..|name|] == name && body[|name| + 1..] == value
  {
    IndexOfFirst(name, value, '=');
  }

  ghost predicate AnyHits(lines: seq<string>, refs: set<string>) {
    exists i :: 0 <= i < |lines| && Hits(lines[i], refs)
  }

  lemma HitsNext(lines: seq<string>, i: nat, refs: set<string>)
    requires i < |lines|
    ensures AnyHits(lines[..i + 1], refs) <==> AnyHits(lines[..i], refs) || Hits(lines[i], refs)
    ensures Hits(lines[i], refs) ==> AnyHits(lines, refs)
  {
    assert forall j :: 0 <= j < i ==> lines[..i + 1][j] == lines[..i][j];
    assert lines[..i + 1][i] == lines[i];
  }

  /** The lines a scanner gets to: those before the first one its buffer does not take. */
  function Scanned(lines: seq<string>, fits: string -> bool): (r: seq<string>)
    ensures r <= lines
    ensures forall i :: 0 <= i < |r| ==> fits(r[i])
    ensures |r| < |lines| ==> !fits(lines[|r|])
  {
    if lines == [] || !fits(lines[0]) then [] else [lines[0]] + Scanned(lines[1..], fits)
  }

  /** dotenvHasCredential: no hit on a file that cannot be opened, nor behind a line too long to scan. */
  method DotenvHasCredential(content: Option<string>, refs: set<string>, fits: string -> bool) returns (found: bool)
    ensures content.None? ==> !found
    ensures content.Some? ==> (found <==> AnyHits(Scanned(Split(content.value, '\n'), fits), refs))
  {
    if content.None? {
      return false;
    }
    var lines := Split(content.value, '\n');
    ghost var seen := Scanned(lines, fits);
    var i := 0;
    while i < |lines| && fits(lines[i])
      invariant 0 <= i <= |seen| && !AnyHits(seen[..i], refs)
    {
      assert i < |seen| && seen[i] == lines[i];
      HitsNext(seen, i, refs);
      var hit := Hits(lines[i], refs);
      if hit {
        return true;
      }
      i := i + 1;
    }
    assert i == |seen| && seen[..i] == seen;
    found := false;
  }

  ghost predicate AllFit(lines: seq<string>, fits: string -> bool) {
    forall i :: 0 <= i < |lines| ==> fits(lines[i])
  }

  /** With every line within the limit the scanner gets to all of them. */
  lemma {:induction false} ScannedIsAll(lines: seq<string>, fits: string -> bool)
    requires AllFit(lines, fits)
    ensures Scanned(lines, fits) == lines
  {
    if lines != [] {
      ScannedIsAll(lines[1..], fits);
    }
  }

  lemma {:induction false} NoEdgeSpace(key: string)
    requires KeyOk(key)
    ensures TrimSpace(key) == key
  {}

  /** The line a save writes holds a credential exactly when its value is more than space and quotes. */
  lemma SavedLineHits(key: string, value: string)
    requires KeyOk(key)
    ensures Hits(key + "=" + value, {key}) <==> !OnlyQuotes(TrimSpace(value))
  {
    var line := key + "=" + value;
    assert line == key + ("=" + value);
    TrimRightTail(key, "=" + value);
    TrimRightTail("", "=" + value);
    assert "" + ("=" + value) == "=" + value;
    EqualsTail(value);
    var t := TrimSpace(line);
    assert t == key + ['='] + TrimRight(value);
    assert key + "=" <= t;
    NoExport(t, key);
    IndexOfFirst(key, TrimRight(value), '=');
    NoEdgeSpace(key);
    TrimRightTwice(value);
    assert t[..|key|] == key && t[|key| + 1..] == TrimRight(value);
  }

  lemma {:induction false} EqualsTail(value: string)
    ensures TrimRight("=" + value) == "=" + TrimRight(value)
  {
    if value != "" && IsSpace(value[|value| - 1]) {
      assert ("=" + value)[..|value|] == "=" + value[..|value| - 1];
      EqualsTail(value[..|value| - 1]);
    } else if value == "" {
      assert "=" + value == "=";
    }
  }

  /** Lines that hit are not blank, so they all survive; the saved line is the one before the last. */
  lemma HitsAfter(before: seq<string>, after: seq<string>, refs: set<string>)
    requires |after| >= 2 && |after| - 2 <= |before| && after[..|after| - 2] == before[..|after| - 2]
    requires forall i :: |after| - 2 <= i < |before| ==> TrimSpace(before[i]) == ""
    requires !Hits(after[|after| - 1], refs)
    ensures AnyHits(after, refs) <==> Hits(after[|after| - 2], refs) || AnyHits(before, refs)
  {
    var n := |after| - 2;
    forall i | 0 <= i < n ensures after[i] == before[i] {
      assert after[..n][i] == before[..n][i];
    }
    forall i | 0 <= i < |before| && Hits(before[i], refs) ensures i < n {
      assert TrimSpace(before[i]) != "";
    }
  }

  /**
   Looking a key up after saving it, in a file of lines the scanner takes, finds it exactly
   when the saved value is more than space and quotes, or some line the save kept spells the
   same key in a form the save overlooks.
   */
  lemma CredentialIsFoundAfterSave(existing: string, key: string, value: string, fits: string -> bool)
    requires KeyOk(key) && OneLine(value)
    requires AllFit(Split(Saved(existing, key, value), '\n'), fits)
    ensures
      AnyHits(Scanned(Split(Saved(existing, key, value), '\n'), fits), {key})
      <==> (!OnlyQuotes(TrimSpace(value)) || AnyHits(Kept(Split(existing, '\n'), key), {key}))
  {
    ScannedIsAll(Split(Saved(existing, key, value), '\n'), fits);
    assert OneLine(key) by { assert IsSpace('\n'); }
    var before := Kept(Split(existing, '\n'), key);
    SaveKeepsTheOtherLines(existing, key, value);
    SavedLineHits(key, value);
    assert !Hits("", {key});
    HitsAfter(before, Split(Saved(existing, key, value), '\n'), {key});
  }
}
