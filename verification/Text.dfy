/** Splitting, joining and trimming of text, as the strings packages of the sources do it. */
module Text {
  import opened Prelude

  /** unicode.IsSpace. */
  predicate IsSpace(c: char) {
    var n := c as int;
    9 <= n <= 13 || n == 32 || n == 0x85 || n == 0xA0 || n == 0x1680 || 0x2000 <= n <= 0x200A ||
    n == 0x2028 || n == 0x2029 || n == 0x202F || n == 0x205F || n == 0x3000
  }

  function TrimLeft(s: string): string {
    if s != "" && IsSpace(s[0]) then TrimLeft(s[1..]) else s
  }

  function TrimRight(s: string): string {
    if s != "" && IsSpace(s[|s| - 1]) then TrimRight(s[..|s| - 1]) else s
  }

  function TrimSpace(s: string): string {
    TrimLeft(TrimRight(s))
  }

  /** Trimming takes white space off both ends, all of it and nothing else. */
  lemma {:induction false} TrimRightIs(s: string) returns (tail: string)
    ensures s == TrimRight(s) + tail && forall i :: 0 <= i < |tail| ==> IsSpace(tail[i])
    ensures TrimRight(s) != "" ==> !IsSpace(TrimRight(s)[|TrimRight(s)| - 1])
  {
    tail := "";
    if s != "" && IsSpace(s[|s| - 1]) {
      tail := TrimRightIs(s[..|s| - 1]);
      tail := tail + [s[|s| - 1]];
    }
  }

  lemma {:induction false} TrimLeftIs(s: string) returns (head: string)
    ensures s == head + TrimLeft(s) && forall i :: 0 <= i < |head| ==> IsSpace(head[i])
    ensures TrimLeft(s) != "" ==> !IsSpace(TrimLeft(s)[0])
  {
    head := "";
    if s != "" && IsSpace(s[0]) {
      head := TrimLeftIs(s[1..]);
      head := [s[0]] + head;
    }
  }

  lemma TrimSpaceIs(s: string) returns (head: string, tail: string)
    ensures s == head + TrimSpace(s) + tail
    ensures forall i :: 0 <= i < |head| ==> IsSpace(head[i])
    ensures forall i :: 0 <= i < |tail| ==> IsSpace(tail[i])
    ensures var t := TrimSpace(s); t != "" ==> !IsSpace(t[0]) && !IsSpace(t[|t| - 1])
  {
    tail := TrimRightIs(s);
    head := TrimLeftIs(TrimRight(s));
    var t := TrimSpace(s);
    assert t != "" ==> t[|t| - 1] == TrimRight(s)[|TrimRight(s)| - 1];
  }

  /** strings.Split by one character: always at least one piece, none holding the separator. */
  function Split(s: string, sep: char): (r: seq<string>)
    ensures |r| > 0
  {
    if s == "" then [""]
    else if s[0] == sep then [""] + Split(s[1..], sep)
    else var r := Split(s[1..], sep); [[s[0]] + r[0]] + r[1..]
  }

  function Join(parts: seq<string>, sep: char): string
    requires |parts| > 0
  {
    if |parts| == 1 then parts[0] else parts[0] + [sep] + Join(parts[1..], sep)
  }

  ghost predicate Free(parts: seq<string>, sep: char) {
    forall i :: 0 <= i < |parts| ==> sep !in parts[i]
  }

  lemma {:induction false} SplitIsFree(s: string, sep: char)
    ensures Free(Split(s, sep), sep)
  {
    if s != "" {
      SplitIsFree(s[1..], sep);
    }
  }

  lemma {:induction false} JoinSplit(s: string, sep: char)
    ensures Join(Split(s, sep), sep) == s
  {
    if s != "" {
      var r := Split(s[1..], sep);
      JoinSplit(s[1..], sep);
      if s[0] == sep {
        assert ([""] + r)[1..] == r;
        assert s == "" + [sep] + s[1..];
      } else if |r| > 1 {
        var t := [[s[0]] + r[0]] + r[1..];
        assert t[1..] == r[1..];
        assert s == [s[0]] + s[1..];
      } else {
        assert s == [s[0]] + s[1..];
      }
    }
  }

  lemma {:induction false} SplitPiece(a: string, rest: string, sep: char)
    requires sep !in a
    ensures Split(a + [sep] + rest, sep) == [a] + Split(rest, sep)
  {
    if a == "" {
      assert a + [sep] + rest == [sep] + rest;
      assert ([sep] + rest)[1..] == rest;
    } else {
      assert (a + [sep] + rest)[1..] == a[1..] + [sep] + rest;
      SplitPiece(a[1..], rest, sep);
      assert [a[0]] + a[1..] == a;
    }
  }

  lemma {:induction false} SplitWhole(a: string, sep: char)
    requires sep !in a
    ensures Split(a, sep) == [a]
  {
    if a != "" {
      SplitWhole(a[1..], sep);
      assert [a[0]] + a[1..] == a;
    }
  }

  lemma {:induction false} SplitJoin(parts: seq<string>, sep: char)
    requires |parts| > 0 && Free(parts, sep)
    ensures Split(Join(parts, sep), sep) == parts
  {
    if |parts| == 1 {
      SplitWhole(parts[0], sep);
    } else {
      SplitJoin(parts[1..], sep);
      SplitPiece(parts[0], Join(parts[1..], sep), sep);
    }
  }

  /** Where `c` first occurs, or |s|. */
  function IndexOf(s: string, c: char): (i: nat)
    ensures i <= |s| && c !in s[..i] && (i < |s| ==> s[i] == c)
  {
    if s == "" || s[0] == c then 0 else
      var i := IndexOf(s[1..], c) + 1;
      assert s[..i] == [s[0]] + s[1..][..i - 1];
      i
  }

  lemma {:induction false} IndexOfFirst(a: string, rest: string, c: char)
    requires c !in a
    ensures IndexOf(a + [c] + rest, c) == |a|
  {
    if a != "" {
      assert (a + [c] + rest)[1..] == a[1..] + [c] + rest;
      IndexOfFirst(a[1..], rest, c);
    }
  }

  lemma IndexOfNone(a: string, c: char)
    requires c !in a
    ensures IndexOf(a, c) == |a|
  {}

  lemma {:induction false} TrimRightTail(a: string, b: string)
    requires b != "" && !IsSpace(b[0])
    ensures TrimRight(a + b) == a + TrimRight(b) && TrimRight(b) != ""
  {
    if IsSpace(b[|b| - 1]) {
      assert (a + b)[..|a + b| - 1] == a + b[..|b| - 1];
      TrimRightTail(a, b[..|b| - 1]);
    }
  }

  lemma {:induction false} TrimRightPrefix(s: string)
    ensures TrimRight(s) <= s
  {
    if s != "" && IsSpace(s[|s| - 1]) {
      TrimRightPrefix(s[..|s| - 1]);
    }
  }

  lemma {:induction false} TrimRightTwice(s: string)
    ensures TrimRight(TrimRight(s)) == TrimRight(s)
  {
    if s != "" && IsSpace(s[|s| - 1]) {
      TrimRightTwice(s[..|s| - 1]);
    }
  }

  /** strings.ReplaceAll of one character by a text. */
  function ReplaceAll(s: string, c: char, text: string): string {
    if s == "" then "" else (if s[0] == c then text else [s[0]]) + ReplaceAll(s[1..], c, text)
  }

  /** A natural number in decimal, as strconv.Itoa and %d print it. */
  function Itoa(n: nat): string {
    if n < 10 then [('0' as int + n) as char] else Itoa(n / 10) + [('0' as int + n % 10) as char]
  }

  predicate Digit(c: char) { '0' <= c <= '9' }

  /** The value of a nonempty run of digits. */
  function Digits(s: string): Option<nat> {
    if s == "" || !Digit(s[|s| - 1]) then None
    else
      var last := s[|s| - 1] as int - '0' as int;
      if |s| == 1 then Some(last)
      else
        var front := Digits(s[..|s| - 1]);
        if front.None? then None else Some(10 * front.value + last)
  }

  lemma {:induction false} ItoaReads(n: nat)
    ensures Digits(Itoa(n)) == Some(n) && Itoa(n) != "" && Digit(Itoa(n)[0])
    ensures forall i :: 0 <= i < |Itoa(n)| ==> Digit(Itoa(n)[i])
  {
    if n >= 10 {
      ItoaReads(n / 10);
      var s, c := Itoa(n / 10), ('0' as int + n % 10) as char;
      assert Itoa(n) == s + [c] && (s + [c])[..|s|] == s;
    }
  }
}
