/**
 The support bundle's redaction of the config snapshot: a flat, line-wise format in which
 only allow-listed keys keep their values. The theorem is a two-run one: snapshots that
 agree on what may be disclosed give the same output, whatever else they hold.

 `allowed` is the allow-list and `tier1` the credential filter that runs in every mode; the
 results hold for every choice of both.
 */
module SnapshotRedaction {
  import opened Prelude
  import opened Text

  const HEADER := "# Redacted for sharing: values naming this machine or deployment (paths,\n" +
    "# endpoints, hosts, prompts, operator-written lists) were removed. \"[redacted]\"\n" +
    "# marks a value that WAS set and was removed; an empty value means the key was\n" +
    "# genuinely unset. Re-run with --include-content to keep them. Credentials are\n" +
    "# removed in both modes."
  const MARKER := "\"[redacted]\""

  datatype KeyLine = KeyLine(key: string, value: string)

  predicate Indented(line: string) {
    line != "" && (line[0] == ' ' || line[0] == '\t')
  }

  /** parseSnapshotKeyLine: a top-level line with a colon that is not its first character. */
  function ParseKeyLine(line: string): Option<KeyLine> {
    if line == "" || Indented(line) || line[0] == '#' then None
    else
      var i := IndexOf(line, ':');
      if i == |line| || i == 0 then None else Some(KeyLine(line[..i], TrimSpace(line[i + 1..])))
  }

  /** snapshotIndentedBlock: how many lines belong to the key above them. */
  function BlockLength(rest: seq<string>): (n: nat)
    ensures n <= |rest|
  {
    if rest != [] && Indented(rest[0]) then 1 + BlockLength(rest[1..]) else 0
  }

  function MapTier1(lines: seq<string>, tier1: string -> string): seq<string> {
    if lines == [] then [] else [tier1(lines[0])] + MapTier1(lines[1..], tier1)
  }

  /** renderSnapshotEntry. */
  function RenderEntry(line: string, k: KeyLine, block: seq<string>, allowed: set<string>,
                       tier1: string -> string): seq<string> {
    if k.key in allowed then [tier1(line)] + MapTier1(block, tier1)
    else if block != [] then [k.key + ": \"[redacted] (" + Itoa(|block|) + " items)\""]
    else if k.value == "" || k.value == "[]" then [line]
    else [k.key + ": " + MARKER]
  }

  /** How an entry is rendered; the loop below does not depend on the choice. */
  type Render = (string, KeyLine, seq<string>) -> seq<string>

  function Renderer(allowed: set<string>, tier1: string -> string): Render {
    (line, k, block) => RenderEntry(line, k, block, allowed, tier1)
  }

  /** What the loop makes of the lines: an entry with its block, or one dropped line. */
  datatype Chunk = Entry(line: string, parsed: KeyLine, block: seq<string>) | Dropped(line: string)

  function Chunks(lines: seq<string>): seq<Chunk>
    decreases |lines|
  {
    if lines == [] then []
    else
      var k := ParseKeyLine(lines[0]);
      if k.None? then [Dropped(lines[0])] + Chunks(lines[1..])
      else
        var n := BlockLength(lines[1..]);
        [Entry(lines[0], k.value, lines[1..][..n])] + Chunks(lines[1 + n..])
  }

  function ChunkLines(c: Chunk): seq<string> {
    match c
    case Entry(line, _, block) => [line] + block
    case Dropped(line) => [line]
  }

  function AllLines(cs: seq<Chunk>): seq<string> {
    if cs == [] then [] else ChunkLines(cs[0]) + AllLines(cs[1..])
  }

  function RenderChunks(cs: seq<Chunk>, render: Render): seq<string> {
    if cs == [] then []
    else
      RenderChunk(cs[0], render) + RenderChunks(cs[1..], render)
  }

  function TrimNewlines(s: string): string {
    if s != "" && s[|s| - 1] == '\n' then TrimNewlines(s[..|s| - 1]) else s
  }

  function Redacted(raw: string, allowed: set<string>, tier1: string -> string): string {
    if raw == "" then raw
    else Join([HEADER] + RenderChunks(Chunks(Split(TrimNewlines(raw), '\n')), Renderer(allowed, tier1)), '\n') + "\n"
  }

  /** Every line of the snapshot is consumed exactly once, as an entry, in a block, or dropped. */
  lemma {:induction false} EachLineIsConsumedOnce(lines: seq<string>)
    ensures AllLines(Chunks(lines)) == lines
    decreases |lines|
  {
    if lines != [] {
      var k := ParseKeyLine(lines[0]);
      if k.None? {
        EachLineIsConsumedOnce(lines[1..]);
      } else {
        var n := BlockLength(lines[1..]);
        EachLineIsConsumedOnce(lines[1 + n..]);
        assert lines == [lines[0]] + lines[1..][..n] + lines[1 + n..];
      }
    }
  }

  function RenderChunk(c: Chunk, render: Render): seq<string> {
    match c
    case Entry(line, k, block) => render(line, k, block)
    case Dropped(_) => []
  }

  lemma NextIsDropped(lines: seq<string>, i: nat)
    requires i < |lines| && ParseKeyLine(lines[i]).None?
    ensures Chunks(lines[i..]) == [Dropped(lines[i])] + Chunks(lines[i + 1..])
  {
    assert lines[i..][1..] == lines[i + 1..];
  }

  lemma NextIsEntry(lines: seq<string>, i: nat, n: nat)
    requires i < |lines| && ParseKeyLine(lines[i]).Some? && n == BlockLength(lines[i + 1..])
    ensures Chunks(lines[i..])
         == [Entry(lines[i], ParseKeyLine(lines[i]).value, lines[i + 1..][..n])] + Chunks(lines[i + 1 + n..])
  {
    assert lines[i..][1..] == lines[i + 1..];
    assert lines[i..][1 + n..] == lines[i + 1 + n..];
  }

  /** What the lines from `i` on still add to the output. */
  function Rest(lines: seq<string>, i: nat, render: Render): seq<string>
    requires i <= |lines|
  {
    RenderChunks(Chunks(lines[i..]), render)
  }

  lemma RenderFirst(c: Chunk, rest: seq<Chunk>, render: Render)
    ensures RenderChunks([c] + rest, render) == RenderChunk(c, render) + RenderChunks(rest, render)
  {
    assert ([c] + rest)[1..] == rest;
  }

  lemma RestAfterDropped(lines: seq<string>, i: nat, render: Render)
    requires i < |lines| && ParseKeyLine(lines[i]).None?
    ensures Rest(lines, i, render) == Rest(lines, i + 1, render)
  {
    NextIsDropped(lines, i);
    RenderFirst(Dropped(lines[i]), Chunks(lines[i + 1..]), render);
  }

  lemma RestAfterEntry(lines: seq<string>, i: nat, k: KeyLine, n: nat, render: Render)
    requires i < |lines| && ParseKeyLine(lines[i]) == Some(k) && n == BlockLength(lines[i + 1..])
    ensures Rest(lines, i, render)
         == render(lines[i], k, lines[i + 1..][..n]) + Rest(lines, i + 1 + n, render)
  {
    NextIsEntry(lines, i, n);
    RenderFirst(Entry(lines[i], k, lines[i + 1..][..n]), Chunks(lines[i + 1 + n..]), render);
  }

  /** What is out already and what is still to come make up the whole output. */
  predicate Progress(out: seq<string>, i: nat, header: string, lines: seq<string>, render: Render) {
    i <= |lines| && out + Rest(lines, i, render) == [header] + Rest(lines, 0, render)
  }

  lemma EntryProgress(out: seq<string>, i: nat, k: KeyLine, n: nat, header: string, lines: seq<string>, render: Render)
    requires Progress(out, i, header, lines, render)
    requires i < |lines| && ParseKeyLine(lines[i]) == Some(k) && n == BlockLength(lines[i + 1..])
    ensures Progress(out + render(lines[i], k, lines[i + 1..][..n]), i + 1 + n, header, lines, render)
  {
    RestAfterEntry(lines, i, k, n, render);
    Assoc(out, render(lines[i], k, lines[i + 1..][..n]), Rest(lines, i + 1 + n, render));
  }

  lemma DroppedProgress(out: seq<string>, i: nat, header: string, lines: seq<string>, render: Render)
    requires Progress(out, i, header, lines, render) && i < |lines| && ParseKeyLine(lines[i]).None?
    ensures Progress(out, i + 1, header, lines, render)
  {
    RestAfterDropped(lines, i, render);
  }

  lemma Assoc(a: seq<string>, b: seq<string>, c: seq<string>)
    ensures (a + b) + c == a + (b + c)
  {}

  lemma Finished(out: seq<string>, header: string, lines: seq<string>, render: Render)
    requires Progress(out, |lines|, header, lines, render)
    ensures out == [header] + RenderChunks(Chunks(lines), render)
  {
    assert lines[|lines|..] == [] && lines[0..] == lines && out + [] == out;
  }

  /** The index loop of redactConfigSnapshot, appending to the header. */
  method RenderLines(header: string, lines: seq<string>, render: Render) returns (out: seq<string>)
    ensures out == [header] + RenderChunks(Chunks(lines), render)
  {
    out := [header];
    var i := 0;
    while i < |lines|
      invariant Progress(out, i, header, lines, render)
      decreases |lines| - i
    {
      var k := ParseKeyLine(lines[i]);
      if k.None? {
        DroppedProgress(out, i, header, lines, render);
        i := i + 1;
      } else {
        var n := BlockLength(lines[i + 1..]);
        EntryProgress(out, i, k.value, n, header, lines, render);
        out := out + render(lines[i], k.value, lines[i + 1..][..n]);
        i := i + 1 + n;
      }
    }
    Finished(out, header, lines, render);
  }

  /** redactConfigSnapshot. */
  method RedactConfigSnapshot(raw: string, includeContent: bool, allowed: set<string>, tier1: string -> string)
    returns (text: string)
    ensures raw == "" ==> text == ""
    ensures raw != "" && includeContent ==> text == tier1(raw)
    ensures !includeContent ==> text == Redacted(raw, allowed, tier1)
  {
    if |raw| == 0 {
      return raw;
    }
    if includeContent {
      return tier1(raw);
    }
    var out := RenderLines(HEADER, Split(TrimNewlines(raw), '\n'), Renderer(allowed, tier1));
    text := Join(out, '\n') + "\n";
  }

  /* ---- what can be in the output at all ---- */

  /** The line shows no more of an entry than its key is allowed to. */
  ghost predicate Discloses(shown: string, c: Chunk, allowed: set<string>, tier1: string -> string) {
    && c.Entry?
    && if c.parsed.key in allowed then
         shown == tier1(c.line) || exists i :: 0 <= i < |c.block| && shown == tier1(c.block[i])
       else if c.block != [] then
         shown == c.parsed.key + ": \"[redacted] (" + Itoa(|c.block|) + " items)\""
       else if c.parsed.value == "" || c.parsed.value == "[]" then shown == c.line
       else shown == c.parsed.key + ": " + "\"[redacted]\""
  }

  /** The line is the entry's, cut at its first colon; its block are the lines behind it that start with a blank. */
  ghost predicate IsParsed(c: Chunk) {
    c.Entry? ==>
      && c.parsed.key != "" && ':' !in c.parsed.key && c.line != "" && c.line[0] !in {' ', '\t', '#'}
      && (exists rest: string :: c.line == c.parsed.key + [':'] + rest && c.parsed.value == TrimSpace(rest))
      && forall i :: 0 <= i < |c.block| ==> c.block[i] != "" && c.block[i][0] in {' ', '\t'}
  }

  lemma {:induction false} BlockIsIndented(rest: seq<string>, i: nat)
    requires i < BlockLength(rest)
    ensures Indented(rest[i])
  {
    if i > 0 {
      BlockIsIndented(rest[1..], i - 1);
    }
  }

  lemma KeyLineIs(line: string)
    requires ParseKeyLine(line).Some?
    ensures IsParsed(Entry(line, ParseKeyLine(line).value, []))
  {
    var i := IndexOf(line, ':');
    assert line == line[..i] + [':'] + line[i + 1..];
  }

  lemma {:induction false} ChunksAreParsed(lines: seq<string>, j: nat)
    requires j < |Chunks(lines)|
    ensures IsParsed(Chunks(lines)[j])
    decreases |lines|
  {
    var k := ParseKeyLine(lines[0]);
    if k.None? {
      if j > 0 {
        ChunksAreParsed(lines[1..], j - 1);
      }
    } else {
      var n := BlockLength(lines[1..]);
      if j > 0 {
        ChunksAreParsed(lines[1 + n..], j - 1);
      } else {
        KeyLineIs(lines[0]);
        var block := lines[1..][..n];
        forall i | 0 <= i < n ensures Indented(block[i]) {
          BlockIsIndented(lines[1..], i);
        }
      }
    }
  }

  lemma OneEntryDiscloses(c: Chunk, allowed: set<string>, tier1: string -> string, i: nat)
    requires i < |RenderChunk(c, Renderer(allowed, tier1))|
    ensures Discloses(RenderChunk(c, Renderer(allowed, tier1))[i], c, allowed, tier1)
  {
    if c.parsed.key in allowed && i > 0 {
      MappedLine(c.block, tier1, i - 1);
    }
  }

  lemma {:induction false} MappedLine(lines: seq<string>, tier1: string -> string, i: nat)
    requires i < |MapTier1(lines, tier1)|
    ensures |MapTier1(lines, tier1)| == |lines| && MapTier1(lines, tier1)[i] == tier1(lines[i])
  {
    if i > 0 {
      MappedLine(lines[1..], tier1, i - 1);
    } else if |lines| > 1 {
      MappedLine(lines[1..], tier1, 0);
    }
  }

  /**
   Whatever text the snapshot is, every line of a default bundle below the header comes from
   one entry of it and shows no more of it than its key allows; all other lines are dropped.
   */
  lemma {:induction false} EveryShownLineIsAnEntrys(cs: seq<Chunk>, allowed: set<string>, tier1: string -> string,
                                                     i: nat) returns (j: nat)
    requires i < |RenderChunks(cs, Renderer(allowed, tier1))|
    ensures j < |cs| && Discloses(RenderChunks(cs, Renderer(allowed, tier1))[i], cs[j], allowed, tier1)
  {
    var first := RenderChunk(cs[0], Renderer(allowed, tier1));
    if i < |first| {
      OneEntryDiscloses(cs[0], allowed, tier1, i);
      j := 0;
    } else {
      j := EveryShownLineIsAnEntrys(cs[1..], allowed, tier1, i - |first|);
      j := j + 1;
    }
  }

  /* ---- the snapshot as its writer produces it ---- */

  /** A comment line, a scalar, or a key with an indented body, such as a list. */
  datatype Setting = Comment(text: string) | Scalar(key: string, value: string) | Block(key: string, items: seq<string>)

  function ItemsText(items: seq<string>): string {
    if items == [] then "" else "  " + items[0] + "\n" + ItemsText(items[1..])
  }

  /** marshalConfigYAML, one setting at a time: items are written as they are. */
  function SettingText(e: Setting): string {
    match e
    case Comment(text) => "# " + text + "\n"
    case Scalar(key, value) => key + ": " + value + "\n"
    case Block(key, items) => key + ":\n" + ItemsText(items)
  }

  function Write(doc: seq<Setting>): string {
    if doc == [] then "" else SettingText(doc[0]) + Write(doc[1..])
  }

  /** The lines a list takes in the file: more than one for an item that holds a line break. */
  function RawLines(items: seq<string>): seq<string> {
    if items == [] then [] else Split("  " + items[0], '\n') + RawLines(items[1..])
  }

  function SettingLines(e: Setting): (r: seq<string>)
    ensures r != []
  {
    match e
    case Comment(text) => ["# " + text]
    case Scalar(key, value) => [key + ": " + value]
    case Block(key, items) => [key + ":"] + RawLines(items)
  }

  function WriteLines(doc: seq<Setting>): seq<string> {
    if doc == [] then [] else SettingLines(doc[0]) + WriteLines(doc[1..])
  }

  predicate KeyOk(key: string) {
    key != "" && ':' !in key && '\n' !in key && !Indented(key) && key[0] != '#'
  }

  /** What the writer guarantees: known key names, and comments and scalar values on one line each. */
  predicate SettingOk(e: Setting) {
    match e
    case Comment(text) => '\n' !in text
    case Scalar(key, value) => KeyOk(key) && '\n' !in value
    case Block(key, items) => KeyOk(key) && items != []
  }

  /** What it does not guarantee: that every line of a list starts with a blank. */
  predicate KeptTogether(e: Setting) {
    e.Block? ==> forall i :: 0 <= i < |RawLines(e.items)| ==> Indented(RawLines(e.items)[i])
  }

  predicate Readable(e: Setting) {
    SettingOk(e) && KeptTogether(e)
  }

  ghost predicate DocOk(doc: seq<Setting>) {
    forall i :: 0 <= i < |doc| ==> Readable(doc[i])
  }

  predicate Unset(value: string) {
    TrimSpace(value) == "" || TrimSpace(value) == "[]"
  }

  /** The two settings differ in nothing a default bundle may disclose. */
  predicate LowEqual(a: Setting, b: Setting, allowed: set<string>) {
    match (a, b)
    case (Comment(_), Comment(_)) => true
    case (Scalar(k, v), Scalar(l, w)) => k == l && (v == w || (k !in allowed && !Unset(v) && !Unset(w)))
    case (Block(k, v), Block(l, w)) => k == l && (v == w || (k !in allowed && |RawLines(v)| == |RawLines(w)|))
    case _ => false
  }

  predicate LowEqualDocs(a: seq<Setting>, b: seq<Setting>, allowed: set<string>) {
    |a| == |b| && forall i :: 0 <= i < |a| ==> LowEqual(a[i], b[i], allowed)
  }

  /** The chunk a setting is read back as when its lines stay together. */
  function ChunkOf(e: Setting): Chunk {
    match e
    case Comment(text) => Dropped("# " + text)
    case Scalar(key, value) => Entry(key + ": " + value, KeyLine(key, TrimSpace(value)), [])
    case Block(key, items) => Entry(key + ":", KeyLine(key, ""), RawLines(items))
  }

  function ChunksOf(doc: seq<Setting>): seq<Chunk> {
    if doc == [] then [] else [ChunkOf(doc[0])] + ChunksOf(doc[1..])
  }

  /* ---- text and lines ---- */

  /** The lines, each ended by a line break. */
  function Ended(lines: seq<string>): string {
    if lines == [] then "" else lines[0] + "\n" + Ended(lines[1..])
  }

  lemma {:induction false} EndedAppend(a: seq<string>, b: seq<string>)
    ensures Ended(a + b) == Ended(a) + Ended(b)
  {
    if a == [] {
      assert a + b == b;
    } else {
      assert (a + b)[1..] == a[1..] + b;
      EndedAppend(a[1..], b);
    }
  }

  lemma {:induction false} EndedIsJoined(lines: seq<string>)
    requires lines != []
    ensures Ended(lines) == Join(lines, '\n') + "\n"
  {
    if |lines| > 1 {
      EndedIsJoined(lines[1..]);
    } else {
      assert Ended(lines[1..]) == "";
    }
  }

  lemma {:induction false} ItemsAreLines(items: seq<string>)
    ensures ItemsText(items) == Ended(RawLines(items))
  {
    if items != [] {
      var first := Split("  " + items[0], '\n');
      JoinSplit("  " + items[0], '\n');
      EndedIsJoined(first);
      EndedAppend(first, RawLines(items[1..]));
      ItemsAreLines(items[1..]);
    }
  }

  lemma SettingIsLines(e: Setting)
    ensures SettingText(e) == Ended(SettingLines(e))
  {
    match e {
      case Comment(text) =>
        assert Ended(["# " + text][1..]) == "";
      case Scalar(key, value) =>
        assert Ended([key + ": " + value][1..]) == "";
      case Block(key, items) =>
        ItemsAreLines(items);
        assert ([key + ":"] + RawLines(items))[1..] == RawLines(items);
        assert key + ":" + "\n" == key + ":\n";
    }
  }

  /** The written text is the written lines. */
  lemma {:induction false} WrittenIsLines(doc: seq<Setting>)
    ensures Write(doc) == Ended(WriteLines(doc))
  {
    if doc != [] {
      WrittenIsLines(doc[1..]);
      SettingIsLines(doc[0]);
      EndedAppend(SettingLines(doc[0]), WriteLines(doc[1..]));
    }
  }

  lemma TrimOneSpace(value: string)
    ensures TrimSpace(" " + value) == TrimSpace(value)
  {
    TrimRightSpace(value);
  }

  lemma {:induction false} TrimRightSpace(value: string)
    ensures TrimRight(" " + value) == if TrimRight(value) == "" then "" else " " + TrimRight(value)
  {
    if value == "" {
      assert " " + value == " " && " "[..0] == "";
    } else if IsSpace(value[|value| - 1]) {
      assert (" " + value)[..|value|] == " " + value[..|value| - 1];
      TrimRightSpace(value[..|value| - 1]);
    }
  }

  lemma KeyLineParses(key: string, tail: string)
    requires KeyOk(key)
    ensures ParseKeyLine(key + ":" + tail) == Some(KeyLine(key, TrimSpace(tail)))
  {
    var line := key + [':'] + tail;
    IndexOfFirst(key, tail, ':');
    assert line[..|key|] == key && line[|key| + 1..] == tail;
    assert line[0] == key[0];
  }

  lemma {:induction false} BlockReads(block: seq<string>, rest: seq<string>)
    requires forall i :: 0 <= i < |block| ==> Indented(block[i])
    requires rest == [] || !Indented(rest[0])
    ensures BlockLength(block + rest) == |block|
  {
    if block == [] {
      assert block + rest == rest;
    } else {
      assert (block + rest)[1..] == block[1..] + rest;
      BlockReads(block[1..], rest);
    }
  }

  lemma {:induction false} BlockStops(block: seq<string>, rest: seq<string>, i: nat)
    requires i < |block| && !Indented(block[i])
    ensures BlockLength(block + rest) <= i
  {
    if Indented(block[0]) {
      assert (block + rest)[1..] == block[1..] + rest;
      BlockStops(block[1..], rest, i - 1);
    }
  }

  lemma HeadAndBody(head: string, body: seq<string>, rest: seq<string>)
    ensures var lines := [head] + body + rest;
            && lines[0..] == lines && lines[1..] == body + rest
            && lines[1 + |body|..] == rest && (body + rest)[..|body|] == body
  {}

  lemma HeadedBlockIsReadBack(head: string, k: KeyLine, block: seq<string>, rest: seq<string>)
    requires ParseKeyLine(head) == Some(k) && (rest == [] || !Indented(rest[0]))
    requires forall i :: 0 <= i < |block| ==> Indented(block[i])
    ensures Chunks([head] + block + rest) == [Entry(head, k, block)] + Chunks(rest)
  {
    BlockReads(block, rest);
    HeadAndBody(head, block, rest);
    NextIsEntry([head] + block + rest, 0, |block|);
  }

  lemma HeadedBlockIsCut(head: string, k: KeyLine, block: seq<string>, rest: seq<string>, i: nat)
    requires ParseKeyLine(head) == Some(k) && i < |block| && !Indented(block[i])
    ensures Chunks([head] + block + rest) != [Entry(head, k, block)] + Chunks(rest)
  {
    BlockStops(block, rest, i);
    HeadAndBody(head, block, rest);
    var n := BlockLength(block + rest);
    NextIsEntry([head] + block + rest, 0, n);
    assert |(block + rest)[..n]| != |block|;
    assert Chunks([head] + block + rest)[0] == Entry(head, k, (block + rest)[..n]);
    assert ([Entry(head, k, block)] + Chunks(rest))[0] == Entry(head, k, block);
  }

  /**
   A written list, whatever its items hold, is read back as one entry of all its lines exactly
   when every line an item goes on with starts with a blank.
   */
  lemma ListIsReadBackIff(key: string, items: seq<string>, rest: seq<string>)
    requires KeyOk(key) && items != [] && (rest == [] || !Indented(rest[0]))
    ensures Chunks(SettingLines(Block(key, items)) + rest)
            == [Entry(key + ":", KeyLine(key, ""), RawLines(items))] + Chunks(rest)
            <==> KeptTogether(Block(key, items))
  {
    var block := RawLines(items);
    assert key + ":" == key + ":" + "";
    KeyLineParses(key, "");
    if KeptTogether(Block(key, items)) {
      HeadedBlockIsReadBack(key + ":", KeyLine(key, ""), block, rest);
    } else {
      var i :| 0 <= i < |block| && !Indented(block[i]);
      HeadedBlockIsCut(key + ":", KeyLine(key, ""), block, rest, i);
    }
  }

  lemma SettingIsReadBack(e: Setting, rest: seq<string>)
    requires Readable(e) && (rest == [] || !Indented(rest[0]))
    ensures Chunks(SettingLines(e) + rest) == [ChunkOf(e)] + Chunks(rest)
  {
    match e {
      case Comment(text) =>
        var lines := ["# " + text] + rest;
        assert lines[0..] == lines && lines[1..] == rest;
        NextIsDropped(lines, 0);
      case Scalar(key, value) =>
        assert key + ": " + value == key + ":" + (" " + value);
        KeyLineParses(key, " " + value);
        TrimOneSpace(value);
        HeadedBlockIsReadBack(key + ": " + value, KeyLine(key, TrimSpace(value)), [], rest);
        assert [key + ": " + value] + [] == SettingLines(e);
      case Block(key, items) =>
        ListIsReadBackIff(key, items, rest);
    }
  }

  lemma FirstLineIsNoBody(doc: seq<Setting>)
    requires DocOk(doc) && doc != []
    ensures WriteLines(doc) != [] && !Indented(WriteLines(doc)[0])
  {
    assert Readable(doc[0]);
    var first := SettingLines(doc[0])[0];
    assert WriteLines(doc)[0] == first;
    assert first[0] == if doc[0].Comment? then '#' else doc[0].key[0];
  }

  /** Reading the written lines gives back one chunk per setting, in order. */
  lemma {:induction false} WrittenLinesAreReadBack(doc: seq<Setting>)
    requires DocOk(doc)
    ensures Chunks(WriteLines(doc)) == ChunksOf(doc)
  {
    if doc != [] {
      WrittenLinesAreReadBack(doc[1..]);
      if doc[1..] != [] {
        FirstLineIsNoBody(doc[1..]);
      }
      assert Readable(doc[0]);
      SettingIsReadBack(doc[0], WriteLines(doc[1..]));
    }
  }

  lemma {:induction false} RawLinesAreFree(items: seq<string>)
    ensures Free(RawLines(items), '\n')
  {
    if items != [] {
      SplitIsFree("  " + items[0], '\n');
      RawLinesAreFree(items[1..]);
    }
  }

  lemma SettingLinesAreFree(e: Setting)
    requires Readable(e)
    ensures Free(SettingLines(e), '\n') && SettingLines(e)[|SettingLines(e)| - 1] != ""
  {
    if e.Block? {
      RawLinesAreFree(e.items);
      var last := |RawLines(e.items)| - 1;
      assert last >= 0 ==> Indented(RawLines(e.items)[last]);
    }
  }

  lemma {:induction false} WrittenLinesAreFree(doc: seq<Setting>)
    requires DocOk(doc)
    ensures Free(WriteLines(doc), '\n')
    ensures doc != [] ==> |WriteLines(doc)| > 0 && WriteLines(doc)[|WriteLines(doc)| - 1] != ""
  {
    if doc != [] {
      assert Readable(doc[0]);
      SettingLinesAreFree(doc[0]);
      WrittenLinesAreFree(doc[1..]);
    }
  }

  lemma {:induction false} JoinEndsWithLast(lines: seq<string>, sep: char)
    requires |lines| > 0 && lines[|lines| - 1] != ""
    ensures Join(lines, sep) != ""
    ensures Join(lines, sep)[|Join(lines, sep)| - 1] == lines[|lines| - 1][|lines[|lines| - 1]| - 1]
  {
    if |lines| > 1 {
      JoinEndsWithLast(lines[1..], sep);
    }
  }

  lemma LinesComeBack(lines: seq<string>)
    requires lines != [] && Free(lines, '\n') && lines[|lines| - 1] != ""
    ensures Split(TrimNewlines(Join(lines, '\n') + "\n"), '\n') == lines
  {
    JoinEndsWithLast(lines, '\n');
    var text := Join(lines, '\n');
    assert (text + "\n")[..|text + "\n"| - 1] == text;
    assert TrimNewlines(text + "\n") == text;
    SplitJoin(lines, '\n');
  }

  /** The loop sees a written snapshot as exactly its settings. */
  lemma WrittenSnapshotIsReadBack(doc: seq<Setting>)
    requires DocOk(doc) && doc != []
    ensures Write(doc) != "" && Chunks(Split(TrimNewlines(Write(doc)), '\n')) == ChunksOf(doc)
  {
    var lines := WriteLines(doc);
    WrittenLinesAreFree(doc);
    WrittenIsLines(doc);
    EndedIsJoined(lines);
    LinesComeBack(lines);
    WrittenLinesAreReadBack(doc);
  }

  /* ---- what is disclosed ---- */

  lemma {:induction false} LowEqualRendersAlike(a: seq<Setting>, b: seq<Setting>, allowed: set<string>,
                                                tier1: string -> string)
    requires LowEqualDocs(a, b, allowed) && DocOk(a) && DocOk(b)
    ensures RenderChunks(ChunksOf(a), Renderer(allowed, tier1)) == RenderChunks(ChunksOf(b), Renderer(allowed, tier1))
  {
    if a != [] {
      assert LowEqual(a[0], b[0], allowed) && Readable(a[0]) && Readable(b[0]);
      LowEqualRendersAlike(a[1..], b[1..], allowed, tier1);
      OneRendersAlike(a[0], b[0], allowed, tier1);
      assert ChunksOf(a)[1..] == ChunksOf(a[1..]) && ChunksOf(b)[1..] == ChunksOf(b[1..]);
    }
  }

  lemma OneRendersAlike(a: Setting, b: Setting, allowed: set<string>, tier1: string -> string)
    requires LowEqual(a, b, allowed) && Readable(a) && Readable(b)
    ensures RenderChunk(ChunkOf(a), Renderer(allowed, tier1)) == RenderChunk(ChunkOf(b), Renderer(allowed, tier1))
  {
    if a.Block? && b.Block? {
      RawLinesExist(a.items);
      RawLinesExist(b.items);
    }
  }

  lemma RawLinesExist(items: seq<string>)
    requires items != []
    ensures RawLines(items) != []
  {}

  /**
   Two snapshots that agree on the allow-listed settings and, for the others, on the key
   order, on which scalars are unset and on how many lines each list takes, redact to the
   same text, provided their lists stay together.
   */
  lemma RedactionDisclosesOnlyAllowedData(a: seq<Setting>, b: seq<Setting>, allowed: set<string>,
                                          tier1: string -> string)
    requires DocOk(a) && DocOk(b) && LowEqualDocs(a, b, allowed)
    ensures Redacted(Write(a), allowed, tier1) == Redacted(Write(b), allowed, tier1)
  {
    if a != [] {
      WrittenSnapshotIsReadBack(a);
      WrittenSnapshotIsReadBack(b);
      LowEqualRendersAlike(a, b, allowed, tier1);
    }
  }

  /* ---- and nothing less ---- */

  /** What the default bundle shows of one setting, read from the lines it was written as. */
  function Shown(e: Setting, allowed: set<string>, tier1: string -> string): seq<string> {
    RenderChunks(Chunks(SettingLines(e)), Renderer(allowed, tier1))
  }

  lemma ShownIsItsChunk(e: Setting, allowed: set<string>, tier1: string -> string)
    requires Readable(e)
    ensures Shown(e, allowed, tier1) == RenderChunk(ChunkOf(e), Renderer(allowed, tier1))
  {
    SettingIsReadBack(e, []);
    assert SettingLines(e) + [] == SettingLines(e);
    RenderFirst(ChunkOf(e), [], Renderer(allowed, tier1));
  }

  lemma {:induction false} AllowedBlockIsKept(body: seq<string>, tier1: string -> string)
    ensures |MapTier1(body, tier1)| == |body|
    ensures forall i :: 0 <= i < |body| ==> MapTier1(body, tier1)[i] == tier1(body[i])
  {
    if body != [] {
      AllowedBlockIsKept(body[1..], tier1);
    }
  }

  /** An allow-listed setting is kept line by line, with only the credential filter applied. */
  lemma AllowedSettingIsKept(e: Setting, allowed: set<string>, tier1: string -> string)
    requires Readable(e) && !e.Comment? && e.key in allowed
    ensures |Shown(e, allowed, tier1)| == |SettingLines(e)|
    ensures forall i :: 0 <= i < |SettingLines(e)| ==> Shown(e, allowed, tier1)[i] == tier1(SettingLines(e)[i])
  {
    ShownIsItsChunk(e, allowed, tier1);
    if e.Scalar? {
      assert MapTier1([], tier1) == [];
    } else {
      AllowedBlockIsKept(RawLines(e.items), tier1);
    }
  }

  lemma CountsDiffer(key: string, m: nat, n: nat)
    requires key + ": \"[redacted] (" + Itoa(m) + " items)\"" == key + ": \"[redacted] (" + Itoa(n) + " items)\""
    ensures m == n
  {
    var head, tail := key + ": \"[redacted] (", " items)\"";
    ItoaReads(m);
    ItoaReads(n);
    SameMiddle(head, Itoa(m), Itoa(n), tail);
  }

  lemma SameMiddle(head: string, a: string, b: string, tail: string)
    requires head + a + tail == head + b + tail
    ensures a == b
  {
    assert |a| == |b|;
    assert (head + a + tail)[|head|..|head| + |a|] == a;
    assert (head + b + tail)[|head|..|head| + |b|] == b;
  }

  /** The one line shown of a setting that is not allowed. */
  function ShownLine(e: Setting): string
    requires !e.Comment?
  {
    match e
    case Scalar(key, value) => if Unset(value) then key + ": " + value else key + ": " + MARKER
    case Block(key, items) => key + ": \"[redacted] (" + Itoa(|RawLines(items)|) + " items)\""
  }

  lemma HiddenShowsOneLine(e: Setting, allowed: set<string>, tier1: string -> string)
    requires Readable(e) && !e.Comment? && e.key !in allowed
    ensures Shown(e, allowed, tier1) == [ShownLine(e)]
  {
    ShownIsItsChunk(e, allowed, tier1);
    if e.Block? {
      RawLinesExist(e.items);
    }
  }

  /** A hidden value is shown as the marker if it is set and as it is if not, a hidden list as its number of lines. */
  lemma HiddenSettingIsMarked(e: Setting, allowed: set<string>, tier1: string -> string)
    requires Readable(e) && !e.Comment? && e.key !in allowed
    ensures match e
            case Scalar(key, value) =>
              Shown(e, allowed, tier1)
              == [if TrimSpace(value) == "" || TrimSpace(value) == "[]" then key + ": " + value
                  else key + ": " + "\"[redacted]\""]
            case Block(key, items) =>
              Shown(e, allowed, tier1) == [key + ": \"[redacted] (" + Itoa(|RawLines(items)|) + " items)\""]
            case Comment(_) => true
  {
    HiddenShowsOneLine(e, allowed, tier1);
  }

  /** Where the text after the key and the colon starts. */
  lemma AfterKey(key: string, x: string, y: string)
    requires key + ": " + x == key + ": " + y
    ensures x == y
  {
    assert (key + ": " + x)[|key| + 2..] == x && (key + ": " + y)[|key| + 2..] == y;
  }

  lemma UnsetIsNotQuoted(value: string)
    requires Unset(value) && value != ""
    ensures value[0] != '"'
  {
    if value[0] == '"' {
      TrimRightTail("", value);
      assert "" + value == value;
      TrimRightPrefix(value);
      assert false;
    }
  }

  lemma BlockIsNotMarked(key: string, n: nat)
    ensures key + ": \"[redacted] (" + Itoa(n) + " items)\"" != key + ": " + MARKER
  {
    var line := key + ": \"[redacted] (" + Itoa(n) + " items)\"";
    var i := |key| + 13;
    assert line[i] == ' ';
    assert (key + ": " + MARKER)[i] == '"';
  }

  lemma UnsetIsNotMarked(key: string, value: string, tail: string)
    requires Unset(value)
    ensures key + ": " + value != key + ": " + ("\"" + tail)
  {
    if key + ": " + value == key + ": " + ("\"" + tail) {
      AfterKey(key, value, "\"" + tail);
      UnsetIsNotQuoted(value);
      assert false;
    }
  }

  lemma BlockIsQuoted(key: string, n: nat)
    ensures key + ": \"[redacted] (" + Itoa(n) + " items)\""
            == key + ": " + ("\"" + ("[redacted] (" + Itoa(n) + " items)\""))
  {}

  lemma MarkerIsQuoted()
    ensures MARKER == "\"" + "[redacted]\""
  {}

  /**
   What a default bundle shows of a setting that is not allow-listed is exactly which key it
   is, whether it is unset and how many lines its list takes: two settings of one key show
   the same only if they agree on that.
   */
  lemma HiddenSettingShowsExactly(a: Setting, b: Setting, allowed: set<string>, tier1: string -> string)
    requires Readable(a) && Readable(b) && !a.Comment? && !b.Comment? && a.key == b.key && a.key !in allowed
    ensures Shown(a, allowed, tier1) == Shown(b, allowed, tier1) <==> LowEqual(a, b, allowed)
  {
    HiddenShowsOneLine(a, allowed, tier1);
    HiddenShowsOneLine(b, allowed, tier1);
    if a.Scalar? && b.Scalar? {
      ScalarsShowExactly(a, b);
    } else if a.Block? && b.Block? {
      if ShownLine(a) == ShownLine(b) {
        CountsDiffer(a.key, |RawLines(a.items)|, |RawLines(b.items)|);
      }
    } else if a.Scalar? {
      ScalarIsNoBlock(a, b);
    } else {
      ScalarIsNoBlock(b, a);
    }
    assert [ShownLine(a)] == [ShownLine(b)] <==> ShownLine(a) == ShownLine(b);
  }

  lemma ScalarIsNoBlock(a: Setting, b: Setting)
    requires a.Scalar? && b.Block? && a.key == b.key
    ensures ShownLine(a) != ShownLine(b)
  {
    var n := |RawLines(b.items)|;
    if Unset(a.value) {
      BlockIsQuoted(b.key, n);
      UnsetIsNotMarked(a.key, a.value, "[redacted] (" + Itoa(n) + " items)\"");
    } else {
      BlockIsNotMarked(b.key, n);
    }
  }

  lemma ScalarsShowExactly(a: Setting, b: Setting)
    requires a.Scalar? && b.Scalar? && a.key == b.key
    ensures ShownLine(a) == ShownLine(b) <==> (a.value == b.value || (!Unset(a.value) && !Unset(b.value)))
  {
    MarkerIsQuoted();
    if Unset(a.value) {
      UnsetIsNotMarked(a.key, a.value, "[redacted]\"");
    }
    if Unset(b.value) {
      UnsetIsNotMarked(b.key, b.value, "[redacted]\"");
    }
    if Unset(a.value) && Unset(b.value) && ShownLine(a) == ShownLine(b) {
      AfterKey(a.key, a.value, b.value);
    }
  }
}
