/** The daemon's pid record: what is written, what is read back, and whose process it names. */
module PidFile {
  import opened Prelude
  import opened Text

  /** `token` is empty when the platform gave none. */
  datatype Record = Record(pid: int, token: string)
  datatype Parsed = Good(record: Record) | Empty | NotAnInteger | NotPositive

  const MAX_INT := 0x7FFF_FFFF_FFFF_FFFF

  /** writePIDRecord's text. */
  function Print(pid: nat, token: string): string {
    Itoa(pid) + ['\n'] + if token == "" then "" else "start=" + token + ['\n']
  }

  /** strconv.Atoi: an optional sign, digits, and a result that fits 64 bits. */
  function Atoi(s: string): Option<int> {
    var negative := s != "" && s[0] == '-';
    var digits := if s != "" && (s[0] == '-' || s[0] == '+') then s[1..] else s;
    var n := Digits(digits);
    if n.None? then None
    else
      var size: int := n.value;
      var value := if negative then -size else size;
      if -MAX_INT - 1 <= value <= MAX_INT then Some(value) else None
  }

  const START := "start="

  /** The token of the last `start=` line, or the one so far. */
  function TokenOf(lines: seq<string>, sofar: string): string {
    if lines == [] then sofar
    else
      var line := TrimSpace(lines[0]);
      TokenOf(lines[1..], if START <= line then line[|START|..] else sofar)
  }

  /** readPIDRecord, on the text of the file. */
  function Parse(raw: string): Parsed {
    var lines := Split(raw, '\n');
    var first := TrimSpace(lines[0]);
    if first == "" then Empty
    else
      var pid := Atoi(first);
      if pid.None? then NotAnInteger
      else if pid.value <= 0 then NotPositive
      else Good(Record(pid.value, TokenOf(lines[1..], "")))
  }

  lemma {:induction false} TrimRightSolid(s: string)
    requires forall i :: 0 <= i < |s| ==> !IsSpace(s[i])
    ensures TrimSpace(s) == s
  {}

  lemma PidLineReads(pid: nat)
    requires 0 < pid <= MAX_INT
    ensures TrimSpace(Itoa(pid)) == Itoa(pid) != "" && Atoi(Itoa(pid)) == Some(pid)
    ensures '\n' !in Itoa(pid)
  {
    ItoaReads(pid);
    TrimRightSolid(Itoa(pid));
  }

  lemma {:induction false} TrimRightKeepsFront(a: string, b: string)
    requires a != "" && !IsSpace(a[|a| - 1])
    ensures TrimRight(a + b) == a + TrimRight(b)
  {
    if b == "" {
      assert a + b == a && a + TrimRight(b) == a;
    } else if IsSpace(b[|b| - 1]) {
      assert (a + b)[..|a + b| - 1] == a + b[..|b| - 1];
      TrimRightKeepsFront(a, b[..|b| - 1]);
    }
  }

  lemma StartLineReads(token: string)
    ensures TrimSpace(START + token) == START + TrimRight(token)
  {
    TrimRightKeepsFront(START, token);
    assert (START + TrimRight(token))[0] == 's';
  }

  /** No line of a file can give a token with a line break or trailing blanks. */
  lemma {:induction false} TokensAreOneLine(lines: seq<string>, sofar: string)
    requires Free(lines, '\n') && '\n' !in sofar && TrimRight(sofar) == sofar
    ensures '\n' !in TokenOf(lines, sofar) && TrimRight(TokenOf(lines, sofar)) == TokenOf(lines, sofar)
  {
    if lines != [] {
      var line := TrimSpace(lines[0]);
      TrimmedIsTrimmed(lines[0]);
      TrimSpaceFree(lines[0]);
      if START <= line {
        var token := line[|START|..];
        assert line == START + token;
        TrimRightKeepsFront(START, token);
        assert TrimRight(line) == START + TrimRight(token) == line;
        assert TrimRight(token) == (START + TrimRight(token))[|START|..];
      }
      TokensAreOneLine(lines[1..], if START <= line then line[|START|..] else sofar);
    }
  }

  lemma {:induction false} TrimLeftSuffix(s: string) returns (n: nat)
    ensures n <= |s| && TrimLeft(s) == s[n..]
  {
    if s != "" && IsSpace(s[0]) {
      n := TrimLeftSuffix(s[1..]);
      n := n + 1;
    } else {
      n := 0;
    }
  }

  lemma TrimSpaceFree(s: string)
    requires '\n' !in s
    ensures '\n' !in TrimSpace(s)
  {
    TrimRightPrefix(s);
    var n := TrimLeftSuffix(TrimRight(s));
    assert forall i :: 0 <= i < |TrimRight(s)| ==> TrimRight(s)[i] == s[i];
  }

  lemma {:induction false} LastIsSolid(s: string)
    ensures TrimRight(s) != "" ==> !IsSpace(TrimRight(s)[|TrimRight(s)| - 1])
  {
    if s != "" && IsSpace(s[|s| - 1]) {
      LastIsSolid(s[..|s| - 1]);
    }
  }

  lemma TrimmedIsTrimmed(s: string)
    ensures TrimRight(TrimSpace(s)) == TrimSpace(s)
  {
    LastIsSolid(s);
    var r := TrimRight(s);
    var n := TrimLeftSuffix(r);
    if n < |r| {
      assert r[n..][|r| - n - 1] == r[|r| - 1];
    }
  }

  predicate OneLineToken(token: string) {
    '\n' !in token && TrimRight(token) == token
  }

  lemma PrintedLines(pid: nat, token: string)
    requires 0 < pid <= MAX_INT && '\n' !in token
    ensures Split(Print(pid, token), '\n') == if token == "" then [Itoa(pid), ""] else [Itoa(pid), START + token, ""]
  {
    PidLineReads(pid);
    if token == "" {
      assert Print(pid, token) == Itoa(pid) + ['\n'] + "";
      SplitPiece(Itoa(pid), "", '\n');
    } else {
      var second := START + token;
      assert '\n' !in second;
      assert Print(pid, token) == Itoa(pid) + ['\n'] + (second + ['\n'] + "");
      SplitPiece(Itoa(pid), second + ['\n'] + "", '\n');
      SplitPiece(second, "", '\n');
    }
  }

  lemma BlankLineGivesNoToken(sofar: string)
    ensures TokenOf([""], sofar) == sofar
  {
    assert TrimSpace("") == "" && !(START <= "");
    assert [""][1..] == [];
  }

  lemma StartLineGivesToken(token: string)
    requires TrimRight(token) == token
    ensures TokenOf([START + token, ""], "") == token
  {
    var lines := [START + token, ""];
    StartLineReads(token);
    assert (START + token)[|START|..] == token;
    assert lines[1..] == [""];
    BlankLineGivesNoToken(token);
  }

  lemma PrintedIsReadBack(pid: nat, token: string)
    requires 0 < pid <= MAX_INT && OneLineToken(token)
    ensures Parse(Print(pid, token)) == Good(Record(pid, token))
  {
    PidLineReads(pid);
    PrintedLines(pid, token);
    var lines := Split(Print(pid, token), '\n');
    BlankLineGivesNoToken(token);
    if token == "" {
      assert lines[1..] == [""];
    } else {
      StartLineGivesToken(token);
      assert lines[1..] == [START + token, ""];
    }
  }

  /** Reading inverts writing exactly when the token is on one line and ends in no blank. */
  lemma ReadBackIff(pid: nat, token: string)
    requires 0 < pid <= MAX_INT
    ensures Parse(Print(pid, token)) == Good(Record(pid, token)) <==> OneLineToken(token)
  {
    var raw := Print(pid, token);
    var lines := Split(raw, '\n');
    SplitIsFree(raw, '\n');
    assert Free(lines[1..], '\n');
    TokensAreOneLine(lines[1..], "");
    if OneLineToken(token) {
      PrintedIsReadBack(pid, token);
    }
  }

  /* ---- what a file is read as ---- */

  /** Of several `start=` lines the last one gives the token. */
  lemma {:induction false} LastStartLineWins(lines: seq<string>, line: string, sofar: string)
    ensures TokenOf(lines + [line], sofar) ==
            if "start=" <= TrimSpace(line) then TrimSpace(line)[6..] else TokenOf(lines, sofar)
  {
    if lines == [] {
      assert lines + [line] == [line] && [line][1..] == [];
    } else {
      assert (lines + [line])[1..] == lines[1..] + [line];
      var first := TrimSpace(lines[0]);
      LastStartLineWins(lines[1..], line, if START <= first then first[|START|..] else sofar);
    }
  }

  /** The pid is the trimmed first line, a positive decimal of 64 bits; the error says what else it is. */
  lemma ParsedPidIs(raw: string)
    ensures var first := TrimSpace(Split(raw, '\n')[0]);
            match Parse(raw)
            case Empty => first == ""
            case NotAnInteger => first != "" && Atoi(first).None?
            case NotPositive => Atoi(first).Some? && Atoi(first).value <= 0
            case Good(r) =>
              && Atoi(first) == Some(r.pid) && 0 < r.pid <= 9223372036854775807
              && r.token == TokenOf(Split(raw, '\n')[1..], "")
  {}

  lemma {:induction false} DigitsAre(s: string, c: char)
    ensures Digits([c]) == if '0' <= c <= '9' then Some(c as int - '0' as int) else None
    ensures Digits(s).None? <==> s == "" || exists i :: 0 <= i < |s| && !('0' <= s[i] <= '9')
    ensures Digits(s).Some? && '0' <= c <= '9' ==>
              Digits(s + [c]) == Some(10 * Digits(s).value + (c as int - '0' as int))
  {
    assert (s + [c])[..|s|] == s;
    if |s| > 1 {
      DigitsAre(s[..|s| - 1], c);
    }
  }

  /** Digits with or without a sign, in the range of 64 bits; nothing else is an integer. */
  lemma AtoiIs(s: string)
    ensures var digits := if s != "" && (s[0] == '-' || s[0] == '+') then s[1..] else s;
            var size: int := if Digits(digits).Some? then Digits(digits).value else 0;
            Atoi(s) ==
              if Digits(digits).None? then None
              else if s[0] == '-' then if size <= 9223372036854775808 then Some(-size) else None
              else if size <= 9223372036854775807 then Some(size) else None
  {}

  /* ---- whose process the record names ---- */

  /** What the host answers about a pid: does it live, and which start token has it, if any. */
  datatype Host = Host(alive: int -> bool, token: int -> Option<string>)

  datatype Ownership = NoFile | Malformed | Dead | Recycled | Live

  /** The pid file: absent, unreadable, or a text. */
  datatype File = Absent | Unreadable | Text(raw: string)

  /** The live process can be the recorded one: the tokens match, or one of them is missing. */
  predicate MayBeOurs(r: Record, h: Host) {
    r.token == "" || h.token(r.pid).None? || h.token(r.pid).value == r.token
  }

  /** The file names a process that lives and may be the recorded one. */
  predicate NamesOurs(f: File, h: Host) {
    f.Text? && Parse(f.raw).Good? && h.alive(Parse(f.raw).record.pid) && MayBeOurs(Parse(f.raw).record, h)
  }

  /** classifyPIDFile: a pid is called live exactly when it lives and no token speaks against it. */
  method ClassifyPidFile(f: File, h: Host) returns (pid: int, o: Ownership)
    ensures o.NoFile? <==> f.Absent?
    ensures o.Malformed? <==> f.Unreadable? || (f.Text? && !Parse(f.raw).Good?)
    ensures o.Dead? || o.Recycled? || o.Live? ==> f.Text? && Parse(f.raw).Good? && pid == Parse(f.raw).record.pid
    ensures o.Live? <==> NamesOurs(f, h)
    ensures o.Recycled? <==>
              f.Text? && Parse(f.raw).Good? && h.alive(Parse(f.raw).record.pid) && !MayBeOurs(Parse(f.raw).record, h)
    ensures o.NoFile? || o.Malformed? ==> pid == 0
    ensures o.Dead? <==> f.Text? && Parse(f.raw).Good? && !h.alive(Parse(f.raw).record.pid)
    ensures o.Recycled? ==> var r := Parse(f.raw).record; r.token != "" && h.token(r.pid) !in {None, Some(r.token)}
    ensures o.Live? ==> var r := Parse(f.raw).record; r.token == "" || h.token(r.pid) in {None, Some(r.token)}
  {
    if f.Absent? {
      return 0, NoFile;
    }
    if f.Unreadable? || !Parse(f.raw).Good? {
      return 0, Malformed;
    }
    var rec := Parse(f.raw).record;
    if !h.alive(rec.pid) {
      return rec.pid, Dead;
    }
    if rec.token != "" {
      var token := h.token(rec.pid);
      if token.Some? && token.value != rec.token {
        return rec.pid, Recycled;
      }
    }
    return rec.pid, Live;
  }

  /**
   A record this program wrote is taken for its own process exactly as long as the process
   keeps the token, or no token can be compared.
   */
  lemma OwnRecordIsOurs(pid: nat, token: string, h: Host)
    requires 0 < pid <= MAX_INT && OneLineToken(token)
    ensures var p := Parse(Print(pid, token));
            && p == Good(Record(pid, token))
            && (MayBeOurs(p.record, h) <==> token == "" || h.token(pid).None? || h.token(pid) == Some(token))
  {
    PrintedIsReadBack(pid, token);
  }
}
