/**
 What the support bundle shows of a list whose lines do not stay together: an item that holds
 a line break goes on without a blank, and the redaction takes what follows for keys.
 */
module SnapshotTorn {
  import opened Prelude
  import opened Text
  import opened SnapshotRedaction

  /* ---- every such list ---- */

  lemma FirstLineUnique(front: string, a: string, r: string, b: string, q: string)
    requires '\n' !in a && '\n' !in b && front + (a + ['\n'] + r) == front + (b + ['\n'] + q)
    ensures a == b
  {
    assert (front + (a + ['\n'] + r))[|front|..] == a + ['\n'] + r;
    assert (front + (b + ['\n'] + q))[|front|..] == b + ['\n'] + q;
    IndexOfFirst(a, r, '\n');
    IndexOfFirst(b, q, '\n');
    assert (a + ['\n'] + r)[..|a|] == a && (b + ['\n'] + q)[..|b|] == b;
  }

  lemma TextStarts(header: string, line: string, rest: seq<string>)
    ensures Join([header] + ([line] + rest), '\n') + "\n" == (header + "\n") + (line + ['\n'] + Ended(rest))
  {
    var lines := [header] + ([line] + rest);
    EndedIsJoined(lines);
    assert lines[1..] == [line] + rest && lines[1..][1..] == rest;
    assert Ended(lines[1..]) == line + "\n" + Ended(rest);
  }

  /** The lines left when the final line breaks are trimmed: those up to the last that is not empty. */
  lemma {:induction false} TrimmedLines(lines: seq<string>) returns (k: nat)
    requires |lines| >= 2 && Free(lines, '\n') && lines[1] != ""
    ensures 2 <= k <= |lines| && Split(TrimNewlines(Ended(lines)), '\n') == lines[..k]
  {
    var init, last := lines[..|lines| - 1], lines[|lines| - 1];
    assert lines == init + [last];
    if last != "" {
      EndedIsJoined(lines);
      LinesComeBack(lines);
      k := |lines|;
      assert lines[..k] == lines;
    } else {
      EndedAppend(init, [last]);
      assert Ended([last]) == "\n" by {
        assert [last][1..] == [];
      }
      assert (Ended(init) + "\n")[..|Ended(init)|] == Ended(init);
      k := TrimmedLines(init);
      assert init[..k] == lines[..k];
    }
  }

  lemma StartsIndented(items: seq<string>)
    requires items != []
    ensures RawLines(items) != [] && Indented(RawLines(items)[0])
  {
    var text := "  " + items[0];
    assert text[0] == ' ' && text[1..] == " " + items[0];
    assert RawLines(items)[0] == Split(text, '\n')[0];
  }

  /** However it is torn, the count shown of a hidden list is too small. */
  lemma TornCountsFewer(e: Setting, allowed: set<string>, tier1: string -> string) returns (m: nat, rest: seq<string>)
    requires e.Block? && SettingOk(e) && e.key !in allowed && !KeptTogether(e)
    ensures 0 < m < |RawLines(e.items)|
    ensures Redacted(Write([e]), allowed, tier1) == Join([HEADER] + ([CountLine(e.key, m)] + rest), '\n') + "\n"
  {
    var lines := SettingLines(e);
    OneSetting(e);
    StartsIndented(e.items);
    RawLinesAreFree(e.items);
    var k := TrimmedLines(lines);
    var head, body := e.key + ":", lines[1..k];
    assert lines[..k] == [head] + body && body == RawLines(e.items)[..k - 1];
    var i :| 0 <= i < |RawLines(e.items)| && !Indented(RawLines(e.items)[i]);
    if i < |body| {
      BlockStops(body, [], i);
    }
    assert body + [] == body;
    m := BlockLength(body);
    rest := FirstEntryShows(e.key, body, allowed, tier1);
  }

  lemma FirstEntryShows(key: string, body: seq<string>, allowed: set<string>, tier1: string -> string)
    returns (rest: seq<string>)
    requires KeyOk(key) && key !in allowed && BlockLength(body) > 0
    ensures RenderChunks(Chunks([key + ":"] + body), Renderer(allowed, tier1))
            == [CountLine(key, BlockLength(body))] + rest
  {
    var lines, n, render := [key + ":"] + body, BlockLength(body), Renderer(allowed, tier1);
    assert key + ":" + "" == key + ":";
    KeyLineParses(key, "");
    assert lines[0..] == lines && lines[1..] == body;
    NextIsEntry(lines, 0, n);
    var c := Entry(key + ":", KeyLine(key, ""), body[..n]);
    RenderFirst(c, Chunks(lines[1 + n..]), render);
    rest := RenderChunks(Chunks(lines[1 + n..]), render);
    assert RenderChunk(c, render) == [CountLine(key, n)];
  }

  /** A list of `n` one-line items. */
  function Plain(n: nat): (items: seq<string>)
    ensures |items| == n
  {
    if n == 0 then [] else ["x"] + Plain(n - 1)
  }

  lemma {:induction false} PlainLines(n: nat)
    ensures |RawLines(Plain(n))| == n
    ensures forall i :: 0 <= i < n ==> Indented(RawLines(Plain(n))[i])
  {
    if n > 0 {
      SplitWhole("  x", '\n');
      assert Plain(n)[0] == "x" && Plain(n)[1..] == Plain(n - 1) && "  " + "x" == "  x";
      assert RawLines(Plain(n)) == ["  x"] + RawLines(Plain(n - 1));
      PlainLines(n - 1);
    }
  }

  lemma KeptShowsItsCount(e: Setting, allowed: set<string>, tier1: string -> string)
    requires e.Block? && Readable(e) && e.key !in allowed
    ensures Redacted(Write([e]), allowed, tier1)
            == Join([HEADER] + ([CountLine(e.key, |RawLines(e.items)|)] + []), '\n') + "\n"
  {
    assert DocOk([e]);
    WrittenSnapshotIsReadBack([e]);
    StartsIndented(e.items);
    assert [e][1..] == [];
    assert ChunksOf([e]) == [ChunkOf(e)] + [];
    RenderFirst(ChunkOf(e), [], Renderer(allowed, tier1));
  }

  lemma CountLinesDiffer(key: string, m: nat, n: nat)
    requires m != n && '\n' !in key
    ensures CountLine(key, m) != CountLine(key, n)
    ensures '\n' !in CountLine(key, m)
  {
    ItoaReads(m);
    if CountLine(key, m) == CountLine(key, n) {
      CountsDiffer(key, m, n);
      assert false;
    }
  }

  lemma TornIsToldApart(e: Setting, allowed: set<string>, tier1: string -> string) returns (g: Setting)
    requires e.Block? && SettingOk(e) && e.key !in allowed && !KeptTogether(e)
    ensures Readable(g) && LowEqual(e, g, allowed)
    ensures Redacted(Write([e]), allowed, tier1) != Redacted(Write([g]), allowed, tier1)
  {
    var n := |RawLines(e.items)|;
    var m, rest := TornCountsFewer(e, allowed, tier1);
    PlainLines(n);
    g := Block(e.key, Plain(n));
    KeptShowsItsCount(g, allowed, tier1);
    CountLinesDiffer(e.key, m, n);
    CountLinesDiffer(e.key, n, m);
    TextStarts(HEADER, CountLine(e.key, m), rest);
    TextStarts(HEADER, CountLine(e.key, n), []);
    CannotAgree(HEADER + "\n", CountLine(e.key, m), Ended(rest), CountLine(e.key, n), Ended([]));
  }

  lemma CannotAgree(front: string, a: string, r: string, b: string, q: string)
    requires '\n' !in a && '\n' !in b && a != b
    ensures front + (a + ['\n'] + r) != front + (b + ['\n'] + q)
  {
    if front + (a + ['\n'] + r) == front + (b + ['\n'] + q) {
      FirstLineUnique(front, a, r, b, q);
      assert false;
    }
  }

  /**
   A hidden list shows nothing but how many lines it takes exactly when its lines stay
   together: then, and only then, every readable setting that agrees with it on what may be
   disclosed is redacted to the same text.
   */
  lemma HiddenListIsHiddenIff(e: Setting, allowed: set<string>, tier1: string -> string)
    requires e.Block? && SettingOk(e) && e.key !in allowed
    ensures KeptTogether(e) <==>
            forall g :: Readable(g) && LowEqual(e, g, allowed) ==>
              Redacted(Write([e]), allowed, tier1) == Redacted(Write([g]), allowed, tier1)
  {
    if KeptTogether(e) {
      forall g | Readable(g) && LowEqual(e, g, allowed)
        ensures Redacted(Write([e]), allowed, tier1) == Redacted(Write([g]), allowed, tier1)
      {
        assert DocOk([e]) && DocOk([g]);
        RedactionDisclosesOnlyAllowedData([e], [g], allowed, tier1);
      }
    } else {
      var g := TornIsToldApart(e, allowed, tier1);
    }
  }

  /* ---- a line that reads as a key ---- */

  /** A list whose one item goes on, without a blank, with text that reads as a key. */
  function Torn(hidden: string, first: string, key: string, value: string): Setting {
    Block(hidden, [first + ['\n'] + (key + ": " + value)])
  }

  /** Everything the redaction is meant to hide: two keys, neither allowed, and a value that is set. */
  ghost predicate TornOk(hidden: string, first: string, key: string, value: string, allowed: set<string>) {
    && KeyOk(hidden) && KeyOk(key) && '\n' !in first && '\n' !in value && !Unset(value)
    && hidden !in allowed && key !in allowed
  }

  lemma TornLines(hidden: string, first: string, key: string, value: string)
    requires KeyOk(key) && '\n' !in first && '\n' !in value
    ensures RawLines(Torn(hidden, first, key, value).items) == ["  " + first, key + ": " + value]
  {
    var line := key + ": " + value;
    var item := first + ['\n'] + line;
    assert "  " + item == ("  " + first) + ['\n'] + line;
    SplitPiece("  " + first, line, '\n');
    SplitWhole(line, '\n');
    OneItem(item);
    assert ["  " + first] + [line] == ["  " + first, line];
  }

  lemma OneItem(item: string)
    ensures RawLines([item]) == Split("  " + item, '\n')
  {
    assert [item][1..] == [];
    assert Split("  " + item, '\n') + [] == Split("  " + item, '\n');
  }

  lemma WrittenTorn(hidden: string, first: string, key: string, value: string)
    requires KeyOk(hidden) && KeyOk(key) && '\n' !in first && '\n' !in value
    ensures var lines := [hidden + ":"] + ["  " + first, key + ": " + value];
            Write([Torn(hidden, first, key, value)]) == Join(lines, '\n') + "\n" && Free(lines, '\n')
            && Split(TrimNewlines(Write([Torn(hidden, first, key, value)])), '\n') == lines
  {
    var e, lines := Torn(hidden, first, key, value), [hidden + ":"] + ["  " + first, key + ": " + value];
    TornLines(hidden, first, key, value);
    OneSetting(e);
    EndedIsJoined(lines);
    LinesComeBack(lines);
  }

  lemma OneSetting(e: Setting)
    ensures Write([e]) == Ended(SettingLines(e))
  {
    SettingIsLines(e);
    assert [e][1..] == [];
    assert SettingText(e) + "" == SettingText(e);
  }

  /** The loop reads such a list as two entries: the list cut short, and the hidden text as a key. */
  lemma TornIsReadAsTwo(hidden: string, first: string, key: string, value: string)
    requires KeyOk(hidden) && KeyOk(key)
    ensures Chunks([hidden + ":"] + ["  " + first, key + ": " + value])
            == [Entry(hidden + ":", KeyLine(hidden, ""), ["  " + first]),
                Entry(key + ": " + value, KeyLine(key, TrimSpace(value)), [])]
  {
    var line := key + ": " + value;
    assert hidden + ":" + "" == hidden + ":";
    KeyLineParses(hidden, "");
    assert key + ":" + (" " + value) == line;
    KeyLineParses(key, " " + value);
    TrimOneSpace(value);
    assert line[0] == key[0];
    HeadedBlockIsReadBack(hidden + ":", KeyLine(hidden, ""), ["  " + first], [line]);
    assert [hidden + ":"] + ["  " + first] + [line] == [hidden + ":"] + ["  " + first, line];
    LastEntry(line, KeyLine(key, TrimSpace(value)));
  }

  lemma LastEntry(line: string, k: KeyLine)
    requires ParseKeyLine(line) == Some(k)
    ensures Chunks([line]) == [Entry(line, k, [])]
  {
    HeadedBlockIsReadBack(line, k, [], []);
    assert [line] + [] + [] == [line];
  }

  function CountLine(key: string, n: nat): string {
    key + ": \"[redacted] (" + Itoa(n) + " items)\""
  }

  lemma TornRenders(hidden: string, first: string, key: string, value: string, allowed: set<string>,
                    tier1: string -> string)
    requires TornOk(hidden, first, key, value, allowed)
    ensures RenderChunks(Chunks([hidden + ":"] + ["  " + first, key + ": " + value]), Renderer(allowed, tier1))
            == [CountLine(hidden, 1), key + ": " + MARKER]
  {
    TornIsReadAsTwo(hidden, first, key, value);
    var c := Entry(hidden + ":", KeyLine(hidden, ""), ["  " + first]);
    var d := Entry(key + ": " + value, KeyLine(key, TrimSpace(value)), []);
    TwoChunks(c, d, Renderer(allowed, tier1));
    CutShortShowsACount(hidden, first, allowed, tier1);
  }

  lemma CutShortShowsACount(hidden: string, first: string, allowed: set<string>, tier1: string -> string)
    requires hidden !in allowed
    ensures RenderEntry(hidden + ":", KeyLine(hidden, ""), ["  " + first], allowed, tier1) == [CountLine(hidden, 1)]
  {}

  lemma TwoChunks(c: Chunk, d: Chunk, render: Render)
    ensures RenderChunks([c, d], render) == RenderChunk(c, render) + RenderChunk(d, render)
  {
    assert [c, d] == [c] + [d] && [d] == [d] + [];
    RenderFirst(c, [d], render);
    RenderFirst(d, [], render);
    assert RenderChunk(d, render) + [] == RenderChunk(d, render);
  }

  /**
   Two snapshots of such a list agree on everything a default bundle may disclose, and redact
   to different texts: what follows the line break is shown as a key.
   */
  lemma HiddenTextIsShownAsAKey(hidden: string, first: string, key: string, other: string, value: string,
                                allowed: set<string>, tier1: string -> string)
    requires TornOk(hidden, first, key, value, allowed) && TornOk(hidden, first, other, value, allowed) && key != other
    ensures var a, b := Torn(hidden, first, key, value), Torn(hidden, first, other, value);
            && SettingOk(a) && SettingOk(b) && LowEqualDocs([a], [b], allowed)
            && Redacted(Write([a]), allowed, tier1) != Redacted(Write([b]), allowed, tier1)
  {
    TornIsLowEqual(hidden, first, key, other, value, allowed);
    TornRedacts(hidden, first, key, value, allowed, tier1);
    TornRedacts(hidden, first, other, value, allowed, tier1);
    TornOutputsDiffer(hidden, key, other);
  }

  /** The redaction of such a list. */
  function TornOutput(header: string, hidden: string, key: string): string {
    Join([header] + [CountLine(hidden, 1), key + ": " + MARKER], '\n') + "\n"
  }

  lemma TornOutputsDiffer(hidden: string, key: string, other: string)
    requires key != other
    ensures TornOutput(HEADER, hidden, key) != TornOutput(HEADER, hidden, other)
  {
    MarkedKeysDiffer(key, other);
    LastLineDiffers(HEADER, CountLine(hidden, 1), key + ": " + MARKER, other + ": " + MARKER);
  }

  lemma MarkedKeysDiffer(key: string, other: string)
    requires key != other
    ensures key + ": " + MARKER != other + ": " + MARKER
  {
    var tail := ": " + MARKER;
    assert key + ": " + MARKER == key + tail && other + ": " + MARKER == other + tail;
    if key + tail == other + tail {
      SameTail(key, other, tail);
      assert false;
    }
  }

  lemma TornIsLowEqual(hidden: string, first: string, key: string, other: string, value: string, allowed: set<string>)
    requires TornOk(hidden, first, key, value, allowed) && TornOk(hidden, first, other, value, allowed)
    ensures var a, b := Torn(hidden, first, key, value), Torn(hidden, first, other, value);
            SettingOk(a) && SettingOk(b) && LowEqualDocs([a], [b], allowed)
  {
    TornLines(hidden, first, key, value);
    TornLines(hidden, first, other, value);
  }

  lemma SameTail(key: string, other: string, tail: string)
    requires key + tail == other + tail
    ensures key == other
  {
    assert (key + tail)[..|key|] == key && (other + tail)[..|other|] == other;
  }

  lemma TornRedacts(hidden: string, first: string, key: string, value: string, allowed: set<string>,
                    tier1: string -> string)
    requires TornOk(hidden, first, key, value, allowed)
    ensures Redacted(Write([Torn(hidden, first, key, value)]), allowed, tier1)
            == TornOutput(HEADER, hidden, key)
  {
    WrittenTorn(hidden, first, key, value);
    TornRenders(hidden, first, key, value, allowed, tier1);
  }

  lemma LastLineDiffers(header: string, line: string, x: string, y: string)
    requires x != y
    ensures Join([header] + [line, x], '\n') + "\n" != Join([header] + [line, y], '\n') + "\n"
  {
    var front := header + ['\n'] + (line + ['\n']);
    JoinThree(header, line, x);
    JoinThree(header, line, y);
    if front + x + "\n" == front + y + "\n" {
      SameMiddle(front, x, y, "\n");
      assert false;
    }
  }

  lemma JoinThree(header: string, line: string, x: string)
    ensures Join([header] + [line, x], '\n') == header + ['\n'] + (line + ['\n']) + x
  {
    assert ([header] + [line, x])[1..] == [line, x] && [line, x][1..] == [x];
    assert Join([line, x], '\n') == line + ['\n'] + x;
  }

  /* ---- a line that reads as an allow-listed key ---- */

  lemma EntryInClear(line: string, k: KeyLine, allowed: set<string>, tier1: string -> string)
    requires k.key in allowed
    ensures RenderChunk(Entry(line, k, []), Renderer(allowed, tier1)) == [tier1(line)]
  {
    assert MapTier1([], tier1) == [];
    assert [tier1(line)] + [] == [tier1(line)];
  }

  lemma RendersInClear(hidden: string, first: string, key: string, value: string, allowed: set<string>,
                       tier1: string -> string)
    requires KeyOk(hidden) && KeyOk(key) && hidden !in allowed && key in allowed
    ensures RenderChunks(Chunks([hidden + ":"] + ["  " + first, key + ": " + value]), Renderer(allowed, tier1))
            == [CountLine(hidden, 1), tier1(key + ": " + value)]
  {
    TornIsReadAsTwo(hidden, first, key, value);
    var line, k := key + ": " + value, KeyLine(key, TrimSpace(value));
    TwoChunks(Entry(hidden + ":", KeyLine(hidden, ""), ["  " + first]), Entry(line, k, []), Renderer(allowed, tier1));
    CutShortShowsACount(hidden, first, allowed, tier1);
    EntryInClear(line, k, allowed, tier1);
  }

  function ClearOutput(header: string, hidden: string, shown: string): string {
    Join([header] + [CountLine(hidden, 1), shown], '\n') + "\n"
  }

  lemma TornInClear(hidden: string, first: string, key: string, value: string, allowed: set<string>,
                    tier1: string -> string)
    requires KeyOk(hidden) && KeyOk(key) && '\n' !in first && '\n' !in value && hidden !in allowed && key in allowed
    ensures Redacted(Write([Torn(hidden, first, key, value)]), allowed, tier1)
            == ClearOutput(HEADER, hidden, tier1(key + ": " + value))
  {
    WrittenTorn(hidden, first, key, value);
    RendersInClear(hidden, first, key, value, allowed, tier1);
  }

  /**
   When an item goes on in text that reads as an allow-listed key, the whole of that line is
   shown, credentials apart: two such lists that agree on all that may be disclosed redact to
   the same text only where the credential filter itself cannot tell their lines apart.
   */
  lemma HiddenTextIsShownInClearIff(hidden: string, first: string, key: string, value: string, other: string,
                                    allowed: set<string>, tier1: string -> string)
    requires KeyOk(hidden) && KeyOk(key) && '\n' !in first && '\n' !in value && '\n' !in other
    requires hidden !in allowed && key in allowed
    ensures var a, b := Torn(hidden, first, key, value), Torn(hidden, first, key, other);
            && SettingOk(a) && SettingOk(b) && LowEqualDocs([a], [b], allowed)
            && (Redacted(Write([a]), allowed, tier1) == Redacted(Write([b]), allowed, tier1)
                <==> tier1(key + ": " + value) == tier1(key + ": " + other))
  {
    TornLines(hidden, first, key, value);
    TornLines(hidden, first, key, other);
    TornInClear(hidden, first, key, value, allowed, tier1);
    TornInClear(hidden, first, key, other, allowed, tier1);
    var x, y := tier1(key + ": " + value), tier1(key + ": " + other);
    if x != y {
      LastLineDiffers(HEADER, CountLine(hidden, 1), x, y);
    }
  }
}
