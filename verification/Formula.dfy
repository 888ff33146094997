/**
 The bump of the hand-written Homebrew formula to a new release. A line is given by what the
 script's patterns see in it; text the patterns skip is carried along.
 */
module Formula {
  import opened Prelude
  import opened Text

  /**
   The address on a url line. A release address holds its tarball's name below the path
   segment of the same version, `before/v1.2/dir2mcp_1.2_os_arch.tar.gz after`; a misfiled
   one holds a tarball's name but not that segment.
   */
  datatype Address =
    | Release(before: string, version: string, os: string, arch: string, after: string)
    | Misfiled(text: string, version: string)
    | Foreign(text: string)

  /** `indent` is the key with the blanks around it, `trail` the blanks after the value. */
  datatype Line =
    | Version(indent: string, version: string, trail: string)
    | Revision(text: string)
    | UrlLine(indent: string, address: Address, trail: string)
    | Sha(indent: string, hex: string, trail: string)
    | Other(text: string)

  datatype Error = SegmentMissing | NoChecksum(file: string) | NoShaFor(file: string) | NothingToBump
  datatype Result<T> = Ok(value: T) | Err(error: Error)

  function NameOf(version: string, os: string, arch: string): string {
    "dir2mcp_" + (version + ['_'] + (os + ['_'] + (arch + ".tar.gz")))
  }

  function TarballName(version: string, a: Address): string
    requires a.Release?
  {
    NameOf(version, a.os, a.arch)
  }

  function Readdressed(a: Address, target: string): Address
    requires a.Release?
  {
    Release(a.before, target, a.os, a.arch, a.after)
  }

  /** _find_declared_version. */
  function DeclaredVersion(lines: seq<Line>): Option<string> {
    if lines == [] then None
    else if lines[0].Version? then Some(lines[0].version)
    else DeclaredVersion(lines[1..])
  }

  /** _version_from_urls. */
  function VersionFromUrls(lines: seq<Line>): Option<string> {
    if lines == [] then None
    else if lines[0].UrlLine? && !lines[0].address.Foreign? then Some(lines[0].address.version)
    else VersionFromUrls(lines[1..])
  }

  function OldVersion(lines: seq<Line>): Option<string> {
    if DeclaredVersion(lines).Some? then DeclaredVersion(lines) else VersionFromUrls(lines)
  }

  predicate IsBump(lines: seq<Line>, target: string) {
    OldVersion(lines).Some? && OldVersion(lines).value != target
  }

  /** The loop's variables after some lines. */
  datatype State = State(out: seq<Line>, pending: Option<string>, seen: set<string>)

  /** What one line does. */
  function Step(s: State, line: Line, target: string, sums: map<string, string>, bump: bool): Result<State> {
    match line
    case Version(indent, _, _) => Ok(s.(out := s.out + [Version(indent, target, "")]))
    case Revision(_) => if bump then Ok(s) else Ok(s.(out := s.out + [line]))
    case UrlLine(indent, Misfiled(_, _), _) => Err(SegmentMissing)
    case UrlLine(indent, Release(before, version, os, arch, after), _) =>
      var file := NameOf(target, os, arch);
      Ok(State(s.out + [UrlLine(indent, Release(before, target, os, arch, after), "")], Some(file), s.seen + {file}))
    case Sha(indent, _, _) =>
      if s.pending.None? then Ok(s.(out := s.out + [line]))
      else if s.pending.value !in sums then Err(NoChecksum(s.pending.value))
      else Ok(State(s.out + [Sha(indent, sums[s.pending.value], "")], None, s.seen))
    case _ => Ok(s.(out := s.out + [line]))
  }

  function Scan(lines: seq<Line>, target: string, sums: map<string, string>, bump: bool): Result<State> {
    if lines == [] then Ok(State([], None, {}))
    else
      var s := Scan(lines[..|lines| - 1], target, sums, bump);
      if s.Err? then s else Step(s.value, lines[|lines| - 1], target, sums, bump)
  }

  function Bumped(lines: seq<Line>, target: string, sums: map<string, string>): Result<seq<Line>> {
    var s := Scan(lines, target, sums, IsBump(lines, target));
    if s.Err? then Err(s.error)
    else if s.value.pending.Some? then Err(NoShaFor(s.value.pending.value))
    else if s.value.seen == {} then Err(NothingToBump)
    else Ok(s.value.out)
  }

  lemma {:induction false} ErrorsStay(lines: seq<Line>, n: nat, target: string, sums: map<string, string>, bump: bool)
    requires n <= |lines| && Scan(lines[..n], target, sums, bump).Err?
    ensures Scan(lines, target, sums, bump) == Scan(lines[..n], target, sums, bump)
    decreases |lines|
  {
    if n == |lines| {
      assert lines[..n] == lines;
    } else {
      assert lines[..|lines| - 1][..n] == lines[..n];
      ErrorsStay(lines[..|lines| - 1], n, target, sums, bump);
    }
  }

  lemma ScanNext(lines: seq<Line>, n: nat, target: string, sums: map<string, string>, bump: bool)
    requires n < |lines| && Scan(lines[..n], target, sums, bump).Ok?
    ensures Scan(lines[..n + 1], target, sums, bump)
            == Step(Scan(lines[..n], target, sums, bump).value, lines[n], target, sums, bump)
  {
    assert lines[..n + 1][..n] == lines[..n];
  }

  /** bump_formula. */
  method BumpFormula(lines: seq<Line>, target: string, sums: map<string, string>) returns (r: Result<seq<Line>>)
    ensures r == Bumped(lines, target, sums)
  {
    var out: seq<Line> := [];
    var pending: Option<string> := None;
    var seen: set<string> := {};
    var bump := IsBump(lines, target);
    for n := 0 to |lines|
      invariant Scan(lines[..n], target, sums, bump) == Ok(State(out, pending, seen))
    {
      ScanNext(lines, n, target, sums, bump);
      var line := lines[n];
      if line.Version? {
        out := out + [Version(line.indent, target, "")];
        continue;
      }
      if bump && line.Revision? {
        continue;
      }
      if line.UrlLine? && line.address.Misfiled? {
        ErrorsStay(lines, n + 1, target, sums, bump);
        return Err(SegmentMissing);
      }
      if line.UrlLine? && line.address.Release? {
        var a := Readdressed(line.address, target);
        var file := TarballName(target, a);
        out := out + [UrlLine(line.indent, a, "")];
        pending := Some(file);
        seen := seen + {file};
        continue;
      }
      if line.Sha? && pending.Some? {
        if pending.value !in sums {
          ErrorsStay(lines, n + 1, target, sums, bump);
          return Err(NoChecksum(pending.value));
        }
        out := out + [Sha(line.indent, sums[pending.value], "")];
        pending := None;
        continue;
      }
      out := out + [line];
    }
    assert lines[..|lines|] == lines;
    if pending.Some? {
      return Err(NoShaFor(pending.value));
    }
    if seen == {} {
      return Err(NothingToBump);
    }
    r := Ok(out);
  }

  /* ---- which lines change ---- */

  /** The input without the lines a real bump drops. */
  function Kept(lines: seq<Line>, bump: bool): seq<Line> {
    if lines == [] then []
    else Kept(lines[..|lines| - 1], bump) + if bump && lines[|lines| - 1].Revision? then [] else [lines[|lines| - 1]]
  }

  predicate IsRelease(line: Line) {
    line.UrlLine? && line.address.Release?
  }

  /**
   The tarball the next sha line is for: that of the last release url, unless a sha line has
   come since.
   */
  function Awaited(lines: seq<Line>): Option<string> {
    if lines == [] then None
    else
      var last := lines[|lines| - 1];
      if IsRelease(last) then Some(TarballName(last.address.version, last.address))
      else if last.Sha? then None
      else Awaited(lines[..|lines| - 1])
  }

  /** How a line may come out: rewritten in the one field that names the release, or as it was. */
  predicate Carries(before: Line, after: Line, target: string, sums: map<string, string>, awaited: Option<string>) {
    if before.Version? then after == Version(before.indent, target, "")
    else if IsRelease(before) then
      var a := before.address;
      after == UrlLine(before.indent, Release(a.before, target, a.os, a.arch, a.after), "")
    else if before.Sha? && awaited.Some? then
      awaited.value in sums && after == Sha(before.indent, sums[awaited.value], "")
    else after == before
  }

  ghost predicate CarriesAll(kept: seq<Line>, out: seq<Line>, target: string, sums: map<string, string>) {
    && |out| == |kept|
    && forall i :: 0 <= i < |out| ==> Carries(kept[i], out[i], target, sums, Awaited(out[..i]))
  }

  lemma CarriesOneMore(kept: seq<Line>, out: seq<Line>, before: Line, after: Line, target: string, sums: map<string,
                       string>)
    requires CarriesAll(kept, out, target, sums) && Carries(before, after, target, sums, Awaited(out))
    ensures CarriesAll(kept + [before], out + [after], target, sums)
  {
    var more := out + [after];
    forall i | 0 <= i < |more| ensures Carries((kept + [before])[i], more[i], target, sums, Awaited(more[..i])) {
      if i < |out| {
        assert more[..i] == out[..i];
      } else {
        assert more[..i] == out;
      }
    }
  }

  lemma AwaitedAfter(out: seq<Line>, after: Line)
    ensures Awaited(out + [after]) == if IsRelease(after) then Some(TarballName(after.address.version, after.address))
                                     else if after.Sha? then None else Awaited(out)
  {
    assert (out + [after])[..|out|] == out;
  }

  lemma StepCarries(s: State, t: State, line: Line, target: string, sums: map<string, string>, bump: bool)
    returns (after: Line)
    requires Step(s, line, target, sums, bump) == Ok(t) && s.pending == Awaited(s.out)
    requires !(bump && line.Revision?)
    ensures t.out == s.out + [after] && Carries(line, after, target, sums, Awaited(s.out))
    ensures t.pending == Awaited(t.out)
  {
    after := t.out[|s.out|];
    AwaitedAfter(s.out, after);
  }

  /**
   Line by line: revisions go exactly on a real bump, version and release lines get the new
   version, a sha line gets the checksum of the tarball it is for, and all else stays in place.
   */
  lemma {:induction false} OnlyReleaseFieldsChange(lines: seq<Line>, target: string, sums: map<string, string>,
                                                   bump: bool)
    requires Scan(lines, target, sums, bump).Ok?
    ensures var s := Scan(lines, target, sums, bump).value;
            CarriesAll(Kept(lines, bump), s.out, target, sums) && s.pending == Awaited(s.out)
  {
    if lines != [] {
      var init, line := lines[..|lines| - 1], lines[|lines| - 1];
      OnlyReleaseFieldsChange(init, target, sums, bump);
      var s := Scan(init, target, sums, bump).value;
      var t := Scan(lines, target, sums, bump).value;
      if !(bump && line.Revision?) {
        var after := StepCarries(s, t, line, target, sums, bump);
        CarriesOneMore(Kept(init, bump), s.out, line, after, target, sums);
      }
    }
  }

  /** The sha line at `k` is the first after the release url at `i`, with no other release between. */
  predicate Paired(lines: seq<Line>, i: int, k: int) {
    && 0 <= i < k < |lines| && IsRelease(lines[i]) && lines[k].Sha?
    && forall m :: i < m < k ==> !IsRelease(lines[m]) && !lines[m].Sha?
  }

  lemma {:induction false} AwaitedIsThePair(lines: seq<Line>, i: nat, k: nat)
    requires i < k <= |lines| && IsRelease(lines[i])
    requires forall m :: i < m < k ==> !IsRelease(lines[m]) && !lines[m].Sha?
    ensures Awaited(lines[..k]) == Some(TarballName(lines[i].address.version, lines[i].address))
  {
    assert lines[..k][..k - 1] == lines[..k - 1];
    if i < k - 1 {
      AwaitedIsThePair(lines, i, k - 1);
    }
  }

  lemma CarriedKinds(kept: seq<Line>, out: seq<Line>, target: string, sums: map<string, string>, m: nat)
    requires CarriesAll(kept, out, target, sums) && m < |out|
    ensures IsRelease(out[m]) == IsRelease(kept[m]) && out[m].Sha? == kept[m].Sha? &&
            out[m].Revision? == kept[m].Revision?
    ensures IsRelease(out[m]) ==> out[m].address.version == target
    ensures out[m].Version? ==> out[m].version == target
  {
    assert Carries(kept[m], out[m], target, sums, Awaited(out[..m]));
  }

  lemma PairHoldsChecksum(kept: seq<Line>, out: seq<Line>, target: string, sums: map<string, string>, i: nat, k: nat)
    requires CarriesAll(kept, out, target, sums) && Paired(out, i, k)
    ensures var file := TarballName(out[i].address.version, out[i].address); file in sums && out[k].hex == sums[file]
  {
    CarriedKinds(kept, out, target, sums, k);
    AwaitedIsThePair(out, i, k);
    assert Carries(kept[k], out[k], target, sums, Awaited(out[..k]));
  }

  lemma OutputCarries(lines: seq<Line>, target: string, sums: map<string, string>, out: seq<Line>)
    requires Bumped(lines, target, sums) == Ok(out)
    ensures CarriesAll(Kept(lines, IsBump(lines, target)), out, target, sums)
  {
    OnlyReleaseFieldsChange(lines, target, sums, IsBump(lines, target));
  }

  /** In the output every release url's sha line holds the checksum of that url's own tarball. */
  lemma EachUrlHasItsChecksum(lines: seq<Line>, target: string, sums: map<string, string>, out: seq<Line>, i: nat,
                              k: nat)
    requires Bumped(lines, target, sums) == Ok(out) && Paired(out, i, k)
    ensures out[i].address.version == target
    ensures var file := TarballName(target, out[i].address); file in sums && out[k].hex == sums[file]
  {
    var kept := Kept(lines, IsBump(lines, target));
    OutputCarries(lines, target, sums, out);
    CarriedKinds(kept, out, target, sums, i);
    PairHoldsChecksum(kept, out, target, sums, i, k);
  }

  /* ---- a release url that another one follows before any sha ---- */

  predicate Unmarked(lines: seq<Line>, i: int, j: int) {
    forall m :: 0 <= m < |lines| && i < m < j ==> !IsRelease(lines[m]) && !lines[m].Sha?
  }

  /** The release url at `j` comes before any sha line for the one at `i`. */
  predicate Overtaken(lines: seq<Line>, i: int, j: int) {
    0 <= i < j < |lines| && IsRelease(lines[i]) && IsRelease(lines[j]) && Unmarked(lines, i, j)
  }

  /** Some release url is overtaken. */
  predicate Overtakes(lines: seq<Line>) {
    if lines == [] then false
    else
      var init, last := lines[..|lines| - 1], lines[|lines| - 1];
      Overtakes(init) || (IsRelease(last) && Awaited(init).Some?)
  }

  lemma {:induction false} AwaitedMeansOpen(lines: seq<Line>) returns (i: int)
    requires Awaited(lines).Some?
    ensures 0 <= i < |lines| && IsRelease(lines[i]) && Unmarked(lines, i, |lines|)
  {
    var last := |lines| - 1;
    if IsRelease(lines[last]) {
      i := last;
    } else {
      i := AwaitedMeansOpen(lines[..last]);
      forall m | 0 <= m < |lines| && i < m ensures !IsRelease(lines[m]) && !lines[m].Sha? {
        assert m < last ==> lines[..last][m] == lines[m];
      }
    }
  }

  lemma OpenMeansAwaited(lines: seq<Line>, i: nat, j: nat)
    requires i < j <= |lines| && IsRelease(lines[i]) && Unmarked(lines, i, j)
    ensures Awaited(lines[..j]).Some?
  {
    forall m | i < m < j ensures !IsRelease(lines[m]) && !lines[m].Sha? {}
    AwaitedIsThePair(lines, i, j);
  }

  lemma {:induction false} OvertakesMeans(lines: seq<Line>) returns (i: int, j: int)
    requires Overtakes(lines)
    ensures Overtaken(lines, i, j)
  {
    var last := |lines| - 1;
    var init := lines[..last];
    if Overtakes(init) {
      i, j := OvertakesMeans(init);
      assert forall m :: 0 <= m < last ==> init[m] == lines[m];
    } else {
      i := AwaitedMeansOpen(init);
      j := last;
      assert forall m :: 0 <= m < last ==> init[m] == lines[m];
    }
  }

  lemma {:induction false} OvertakenMeans(lines: seq<Line>, i: nat, j: nat)
    requires Overtaken(lines, i, j)
    ensures Overtakes(lines)
  {
    var last := |lines| - 1;
    var init := lines[..last];
    assert forall m :: 0 <= m < last ==> init[m] == lines[m];
    if j < last {
      OvertakenMeans(init, i, j);
    } else {
      OpenMeansAwaited(lines, i, last);
    }
  }

  /** Dropping revision lines does not change it. */
  lemma {:induction false} KeptOvertakes(lines: seq<Line>, bump: bool)
    ensures Awaited(Kept(lines, bump)).Some? == Awaited(lines).Some?
    ensures Overtakes(Kept(lines, bump)) == Overtakes(lines)
  {
    if lines != [] {
      var init, last := lines[..|lines| - 1], lines[|lines| - 1];
      KeptOvertakes(init, bump);
      var kept := Kept(init, bump);
      if bump && last.Revision? {
        assert Kept(lines, bump) == kept;
      } else {
        assert Kept(lines, bump) == kept + [last] && (kept + [last])[..|kept + [last]| - 1] == kept;
      }
    }
  }

  ghost predicate SameKinds(a: seq<Line>, b: seq<Line>) {
    |a| == |b| && forall m :: 0 <= m < |a| ==> IsRelease(a[m]) == IsRelease(b[m]) && a[m].Sha? == b[m].Sha?
  }

  lemma {:induction false} KindsOvertake(a: seq<Line>, b: seq<Line>)
    requires SameKinds(a, b)
    ensures Awaited(a).Some? == Awaited(b).Some? && Overtakes(a) == Overtakes(b)
  {
    if a != [] {
      KindsOvertake(a[..|a| - 1], b[..|b| - 1]);
    }
  }

  /** The first line after `i` that is a release url or a sha. */
  lemma NextMark(lines: seq<Line>, i: nat) returns (k: nat)
    requires i < |lines|
    ensures i < k <= |lines| && Unmarked(lines, i, k)
    ensures k < |lines| ==> IsRelease(lines[k]) || lines[k].Sha?
  {
    k := i + 1;
    while k < |lines| && !IsRelease(lines[k]) && !lines[k].Sha?
      invariant i < k <= |lines| && Unmarked(lines, i, k)
    {
      k := k + 1;
    }
  }

  ghost predicate HasSha(lines: seq<Line>, i: int) {
    exists k :: Paired(lines, i, k)
  }

  lemma PairedUnlessOvertaken(lines: seq<Line>, i: nat)
    requires Awaited(lines).None? && i < |lines| && IsRelease(lines[i])
    ensures HasSha(lines, i) || Overtakes(lines)
  {
    var k := NextMark(lines, i);
    assert lines[..|lines|] == lines;
    if k == |lines| {
      OpenMeansAwaited(lines, i, k);
    } else if lines[k].Sha? {
      assert Paired(lines, i, k);
    } else {
      OvertakenMeans(lines, i, k);
    }
  }

  lemma OvertakenIsUnpaired(lines: seq<Line>, i: nat, j: nat)
    requires Overtaken(lines, i, j)
    ensures !HasSha(lines, i)
  {
    forall k ensures !Paired(lines, i, k) {
      assert i < k < j ==> !lines[k].Sha?;
      assert IsRelease(lines[j]) && !lines[j].Sha?;
    }
  }

  lemma AllPairedIff(lines: seq<Line>)
    requires Awaited(lines).None?
    ensures (forall i :: 0 <= i < |lines| && IsRelease(lines[i]) ==> HasSha(lines, i)) <==> !Overtakes(lines)
  {
    forall i | 0 <= i < |lines| && IsRelease(lines[i]) && !Overtakes(lines) ensures HasSha(lines, i) {
      PairedUnlessOvertaken(lines, i);
    }
    if Overtakes(lines) {
      var i, j := OvertakesMeans(lines);
      OvertakenIsUnpaired(lines, i, j);
      assert IsRelease(lines[i]);
    }
  }

  /**
   After a bump that reports no error every release url is followed by its own sha line,
   which EachUrlHasItsChecksum says is right, exactly when no release url of the formula was
   followed by another before a sha line.
   */
  lemma EveryUrlIsPairedIff(lines: seq<Line>, target: string, sums: map<string, string>, out: seq<Line>)
    requires Bumped(lines, target, sums) == Ok(out)
    ensures (forall i :: 0 <= i < |out| && IsRelease(out[i]) ==> HasSha(out, i))
            <==> (forall i, j :: !Overtaken(lines, i, j))
  {
    var bump := IsBump(lines, target);
    var kept := Kept(lines, bump);
    OnlyReleaseFieldsChange(lines, target, sums, bump);
    OutputKinds(kept, out, target, sums);
    KindsOvertake(kept, out);
    KeptOvertakes(lines, bump);
    AllPairedIff(out);
    OvertakesIff(lines);
  }

  lemma OutputKinds(kept: seq<Line>, out: seq<Line>, target: string, sums: map<string, string>)
    requires CarriesAll(kept, out, target, sums)
    ensures SameKinds(kept, out)
  {
    forall m | 0 <= m < |out| ensures IsRelease(kept[m]) == IsRelease(out[m]) && kept[m].Sha? == out[m].Sha? {
      CarriedKinds(kept, out, target, sums, m);
    }
  }

  lemma OvertakesIff(lines: seq<Line>)
    ensures Overtakes(lines) <==> exists i, j :: Overtaken(lines, i, j)
  {
    if Overtakes(lines) {
      var i, j := OvertakesMeans(lines);
    }
    if i, j :| Overtaken(lines, i, j) {
      OvertakenMeans(lines, i, j);
    }
  }

  /**
   Two urls and then their two sha lines: the bump reports no error, moves both urls to the
   new version, gives the second its checksum and leaves the first one's sha as it was.
   */
  lemma OvertakenUrlKeepsItsOldSha(u: Line, v: Line, x: Line, y: Line, target: string, sums: map<string, string>)
    requires IsRelease(u) && IsRelease(v) && x.Sha? && y.Sha? && TarballName(target, v.address) in sums
    ensures Bumped([u, v, x, y], target, sums)
            == Ok([UrlLine(u.indent, Readdressed(u.address, target), ""),
               UrlLine(v.indent, Readdressed(v.address, target), ""),
                   Sha(x.indent, sums[TarballName(target, v.address)], ""), y])
  {
    var lines, bump := [u, v, x, y], IsBump([u, v, x, y], target);
    var f, g := TarballName(target, u.address), TarballName(target, v.address);
    var a, b := UrlLine(u.indent, Readdressed(u.address, target), ""),
        UrlLine(v.indent, Readdressed(v.address, target), "");
    var c := Sha(x.indent, sums[g], "");
    assert lines[..0] == [] && lines[..4] == lines;
    ScanNext(lines, 0, target, sums, bump);
    assert [] + [a] == [a] && {} + {f} == {f};
    assert Scan(lines[..1], target, sums, bump) == Ok(State([a], Some(f), {f}));
    ScanNext(lines, 1, target, sums, bump);
    assert [a] + [b] == [a, b];
    assert Scan(lines[..2], target, sums, bump) == Ok(State([a, b], Some(g), {f} + {g}));
    ScanNext(lines, 2, target, sums, bump);
    assert [a, b] + [c] == [a, b, c];
    assert Scan(lines[..3], target, sums, bump) == Ok(State([a, b, c], None, {f} + {g}));
    ScanNext(lines, 3, target, sums, bump);
    assert [a, b, c] + [y] == [a, b, c, y];
  }

  lemma {:induction false} KeptHasNoRevision(lines: seq<Line>, bump: bool, i: nat)
    requires i < |Kept(lines, bump)| && bump
    ensures !Kept(lines, bump)[i].Revision?
  {
    if i < |Kept(lines[..|lines| - 1], bump)| {
      KeptHasNoRevision(lines[..|lines| - 1], bump, i);
    }
  }

  lemma {:induction false} KeptIsAll(lines: seq<Line>)
    ensures Kept(lines, false) == lines
  {
    if lines != [] {
      KeptIsAll(lines[..|lines| - 1]);
    }
  }

  /** Piece by piece: on a real bump the revision lines are taken out, and else nothing is. */
  lemma {:induction false} KeptIs(a: seq<Line>, b: seq<Line>, line: Line, bump: bool)
    ensures Kept([], bump) == [] && Kept(a + b, bump) == Kept(a, bump) + Kept(b, bump)
    ensures Kept([line], bump) == if bump && line.Revision? then [] else [line]
    decreases |b|
  {
    assert [line][..0] == [];
    if b == [] {
      assert a + b == a;
    } else {
      assert (a + b)[..|a + b| - 1] == a + b[..|b| - 1];
      KeptIs(a, b[..|b| - 1], line, bump);
    }
  }

  /* ---- which version a formula states ---- */

  predicate NamesVersion(line: Line) {
    line.UrlLine? && !line.address.Foreign?
  }

  /** The `i`-th line is the first that declares a version. */
  predicate FirstDeclared(lines: seq<Line>, i: int) {
    0 <= i < |lines| && lines[i].Version? && forall j :: 0 <= j < i ==> !lines[j].Version?
  }

  /** The `i`-th line is the first url line that names a tarball. */
  predicate FirstUrl(lines: seq<Line>, i: int) {
    0 <= i < |lines| && NamesVersion(lines[i]) && forall j :: 0 <= j < i ==> !NamesVersion(lines[j])
  }

  lemma {:induction false} DeclaredIs(lines: seq<Line>)
    ensures DeclaredVersion(lines).None? <==> forall i :: 0 <= i < |lines| ==> !lines[i].Version?
    ensures forall i :: FirstDeclared(lines, i) ==> DeclaredVersion(lines) == Some(lines[i].version)
  {
    if lines != [] {
      DeclaredIs(lines[1..]);
      forall i | FirstDeclared(lines, i) && i > 0 ensures FirstDeclared(lines[1..], i - 1) {}
      forall i | 0 < i < |lines| ensures lines[i] == lines[1..][i - 1] {}
    }
  }

  lemma {:induction false} FromUrlsIs(lines: seq<Line>)
    ensures VersionFromUrls(lines).None? <==> forall i :: 0 <= i < |lines| ==> !NamesVersion(lines[i])
    ensures forall i :: FirstUrl(lines, i) ==> VersionFromUrls(lines) == Some(lines[i].address.version)
  {
    if lines != [] {
      FromUrlsIs(lines[1..]);
      forall i | FirstUrl(lines, i) && i > 0 ensures FirstUrl(lines[1..], i - 1) {}
      forall i | 0 < i < |lines| ensures lines[i] == lines[1..][i - 1] {}
    }
  }

  lemma {:induction false} SomeFirstDeclared(lines: seq<Line>) returns (i: int)
    requires exists j :: 0 <= j < |lines| && lines[j].Version?
    ensures FirstDeclared(lines, i)
  {
    if lines[0].Version? {
      i := 0;
    } else {
      var j :| 0 <= j < |lines| && lines[j].Version?;
      assert lines[1..][j - 1].Version?;
      i := SomeFirstDeclared(lines[1..]);
      i := i + 1;
      forall k | 0 <= k < i ensures !lines[k].Version? {
        assert k > 0 ==> lines[k] == lines[1..][k - 1];
      }
    }
  }

  lemma {:induction false} SomeFirstUrl(lines: seq<Line>) returns (i: int)
    requires exists j :: 0 <= j < |lines| && NamesVersion(lines[j])
    ensures FirstUrl(lines, i)
  {
    if NamesVersion(lines[0]) {
      i := 0;
    } else {
      var j :| 0 <= j < |lines| && NamesVersion(lines[j]);
      assert NamesVersion(lines[1..][j - 1]);
      i := SomeFirstUrl(lines[1..]);
      i := i + 1;
      forall k | 0 <= k < i ensures !NamesVersion(lines[k]) {
        assert k > 0 ==> lines[k] == lines[1..][k - 1];
      }
    }
  }

  /**
   A bump is real exactly when the first version line names another version or, where there
   is none, the first url line that names a tarball does.
   */
  lemma IsBumpIff(lines: seq<Line>, target: string)
    ensures IsBump(lines, target) <==>
              || (exists i :: FirstDeclared(lines, i) && lines[i].version != target)
              || ((forall i :: 0 <= i < |lines| ==> !lines[i].Version?)
                  && exists i :: FirstUrl(lines, i) && lines[i].address.version != target)
  {
    DeclaredIs(lines);
    FromUrlsIs(lines);
    if DeclaredVersion(lines).Some? {
      var i := SomeFirstDeclared(lines);
    } else if VersionFromUrls(lines).Some? {
      var i := SomeFirstUrl(lines);
    }
  }

  /* ---- when a bump is refused ---- */

  /** The release url at `i` is still waiting for a sha line at the end. */
  predicate Open(lines: seq<Line>, i: int) {
    0 <= i < |lines| && IsRelease(lines[i]) && Unmarked(lines, i, |lines|)
  }

  predicate IsMisfiled(line: Line) {
    line.UrlLine? && line.address.Misfiled?
  }

  /** The name the tarball of a release line gets. */
  function NewName(line: Line, target: string): string
    requires IsRelease(line)
  {
    NameOf(target, line.address.os, line.address.arch)
  }

  /** The loop's state after lines that raised no error. */
  ghost predicate StateOf(s: State, lines: seq<Line>, target: string) {
    && (s.pending.None? <==> forall i :: !Open(lines, i))
    && (forall i :: Open(lines, i) ==> s.pending == Some(NewName(lines[i], target)))
    && (s.seen == {} <==> forall i :: 0 <= i < |lines| ==> !IsRelease(lines[i]))
  }

  /** Every line is one the loop can go on from. */
  ghost predicate NoRefusal(lines: seq<Line>, target: string, sums: map<string, string>) {
    && (forall i :: 0 <= i < |lines| ==> !IsMisfiled(lines[i]))
    && (forall i, k :: Paired(lines, i, k) ==> NewName(lines[i], target) in sums)
  }

  /** Why a loop stopped. */
  ghost predicate Refused(e: Error, lines: seq<Line>, target: string, sums: map<string, string>) {
    match e
    case SegmentMissing => exists i :: 0 <= i < |lines| && IsMisfiled(lines[i])
    case NoChecksum(file) => file !in sums && exists i, k :: Paired(lines, i, k) && file == NewName(lines[i], target)
    case _ => false
  }

  lemma OpenNext(init: seq<Line>, last: Line, i: int)
    ensures Open(init + [last], i) <==>
              if IsRelease(last) then i == |init| else !last.Sha? && Open(init, i)
  {
    var lines := init + [last];
    assert lines[|init|] == last;
    assert forall m :: 0 <= m < |init| ==> lines[m] == init[m];
  }

  lemma PairedNext(init: seq<Line>, last: Line, i: int, k: int)
    ensures Paired(init + [last], i, k) <==> Paired(init, i, k) || (k == |init| && last.Sha? && Open(init, i))
  {
    var lines := init + [last];
    assert lines[|init|] == last;
    assert forall m :: 0 <= m < |init| ==> lines[m] == init[m];
  }

  lemma ReleaseState(s: State, init: seq<Line>, last: Line, target: string, sums: map<string, string>, bump: bool)
    requires StateOf(s, init, target) && NoRefusal(init, target, sums) && IsRelease(last)
    ensures var t := Step(s, last, target, sums, bump);
            && (t.Ok? ==> StateOf(t.value, init + [last], target) && NoRefusal(init + [last], target, sums))
            && (t.Err? ==> Refused(t.error, init + [last], target, sums))
  {
    var lines := init + [last];
    assert lines[|init|] == last;
    OthersStay(init, last);
    assert Open(lines, |init|);
    forall i, k | Paired(lines, i, k) ensures Paired(init, i, k) {
      PairedNext(init, last, i, k);
    }
    forall i | Open(lines, i) ensures i == |init| {
      OpenNext(init, last, i);
    }
  }

  lemma ShaState(s: State, init: seq<Line>, last: Line, target: string, sums: map<string, string>, bump: bool)
    requires StateOf(s, init, target) && NoRefusal(init, target, sums) && last.Sha?
    ensures var t := Step(s, last, target, sums, bump);
            && (t.Ok? ==> StateOf(t.value, init + [last], target) && NoRefusal(init + [last], target, sums))
            && (t.Err? ==> Refused(t.error, init + [last], target, sums))
  {
    var lines := init + [last];
    assert lines[|init|] == last;
    OthersStay(init, last);
    forall i ensures !Open(lines, i) {
      OpenNext(init, last, i);
    }
    forall i, k ensures Paired(lines, i, k) <==> Paired(init, i, k) || (k == |init| && Open(init, i)) {
      PairedNext(init, last, i, k);
    }
    if s.pending.Some? {
      var i :| Open(init, i);
      assert Paired(lines, i, |init|) && NewName(lines[i], target) == s.pending.value;
    }
  }

  lemma PlainState(s: State, init: seq<Line>, last: Line, target: string, sums: map<string, string>, bump: bool)
    requires StateOf(s, init, target) && NoRefusal(init, target, sums) && !IsRelease(last) && !last.Sha?
    ensures var t := Step(s, last, target, sums, bump);
            && (t.Ok? ==> StateOf(t.value, init + [last], target) && NoRefusal(init + [last], target, sums))
            && (t.Err? ==> Refused(t.error, init + [last], target, sums))
  {
    var lines := init + [last];
    assert lines[|init|] == last;
    OthersStay(init, last);
    forall i ensures Open(lines, i) <==> Open(init, i) {
      OpenNext(init, last, i);
    }
    forall i, k ensures Paired(lines, i, k) <==> Paired(init, i, k) {
      PairedNext(init, last, i, k);
    }
  }

  lemma OthersStay(init: seq<Line>, last: Line)
    ensures forall i :: 0 <= i < |init| ==> (init + [last])[i] == init[i]
  {}

  lemma StepState(s: State, init: seq<Line>, last: Line, target: string, sums: map<string, string>, bump: bool)
    requires StateOf(s, init, target) && NoRefusal(init, target, sums)
    ensures var t := Step(s, last, target, sums, bump);
            && (t.Ok? ==> StateOf(t.value, init + [last], target) && NoRefusal(init + [last], target, sums))
            && (t.Err? ==> Refused(t.error, init + [last], target, sums))
  {
    if IsRelease(last) {
      ReleaseState(s, init, last, target, sums, bump);
    } else if last.Sha? {
      ShaState(s, init, last, target, sums, bump);
    } else {
      PlainState(s, init, last, target, sums, bump);
    }
  }

  lemma {:induction false} ScanState(lines: seq<Line>, target: string, sums: map<string, string>, bump: bool)
    ensures var s := Scan(lines, target, sums, bump);
            && (s.Ok? ==> StateOf(s.value, lines, target) && NoRefusal(lines, target, sums))
            && (s.Err? ==> Refused(s.error, lines, target, sums))
  {
    if lines != [] {
      var init, last := lines[..|lines| - 1], lines[|lines| - 1];
      ScanState(init, target, sums, bump);
      assert lines == init + [last];
      var s := Scan(init, target, sums, bump);
      if s.Ok? {
        StepState(s.value, init, last, target, sums, bump);
      } else {
        RefusedStays(s.error, init, last, target, sums);
      }
    }
  }

  lemma RefusedStays(e: Error, init: seq<Line>, last: Line, target: string, sums: map<string, string>)
    requires Refused(e, init, target, sums)
    ensures Refused(e, init + [last], target, sums)
  {
    var lines := init + [last];
    if e.SegmentMissing? {
      var i :| 0 <= i < |init| && IsMisfiled(init[i]);
      assert lines[i] == init[i];
    } else {
      var i, k :| Paired(init, i, k) && e.file == NewName(init[i], target);
      PairedNext(init, last, i, k);
      assert lines[i] == init[i];
    }
  }

  /**
   A bump is carried out exactly when no url line is misfiled, every release url with a sha
   line of its own has its new tarball in the checksums, the last release url has a sha line
   after it, and there is a release url at all. An error names what is wrong.
   */
  lemma BumpedIff(lines: seq<Line>, target: string, sums: map<string, string>)
    ensures Bumped(lines, target, sums).Ok? <==>
              && (forall i :: 0 <= i < |lines| ==> !IsMisfiled(lines[i]))
              && (forall i, k :: Paired(lines, i, k) ==> NewName(lines[i], target) in sums)
              && (forall i :: !Open(lines, i))
              && (exists i :: 0 <= i < |lines| && IsRelease(lines[i]))
    ensures Bumped(lines, target, sums).Err? ==>
              match Bumped(lines, target, sums).error
              case NothingToBump => forall i :: 0 <= i < |lines| ==> !IsRelease(lines[i])
              case NoShaFor(file) => exists i :: Open(lines, i) && file == NewName(lines[i], target)
              case e => Refused(e, lines, target, sums)
  {
    ScanState(lines, target, sums, IsBump(lines, target));
  }

  lemma NameIs(version: string, os: string, arch: string)
    ensures NameOf(version, os, arch) == "dir2mcp_" + version + "_" + os + "_" + arch + ".tar.gz"
  {
    var t := ".tar.gz";
    assert (os + ['_'] + (arch + t)) == os + "_" + arch + t;
    assert version + ['_'] + (os + ['_'] + (arch + t)) == version + "_" + os + "_" + arch + t;
    assert "dir2mcp_" + (version + "_" + os + "_" + arch + t) == "dir2mcp_" + version + "_" + os + "_" + arch + t;
  }

  /* ---- a second bump to the same version ---- */

  /** Sixty-four hexadecimal digits, as every checksum is. */
  predicate Checksum(s: string) {
    |s| == 64 && forall i :: 0 <= i < |s| ==> '0' <= s[i] <= '9' || 'a' <= s[i] <= 'f' || 'A' <= s[i] <= 'F'
  }

  /** The fields of a line are what its pattern reads, so the line is read back as itself. */
  predicate LineReadable(line: Line) {
    && (line.Version? ==> line.version != "" && '"' !in line.version)
    && (line.Sha? ==> Checksum(line.hex))
    && (IsRelease(line) ==>
          TarballVersion(line.address.version) && OsName(line.address.os) && ArchName(line.address.arch))
  }

  predicate Readable(lines: seq<Line>) {
    forall i :: 0 <= i < |lines| ==> LineReadable(lines[i])
  }

  /** What parse_checksums lets through. */
  predicate SumsOk(sums: map<string, string>) {
    forall f :: f in sums ==> Checksum(sums[f])
  }

  lemma StepIsReadable(s: State, line: Line, target: string, sums: map<string, string>, bump: bool)
    requires Readable(s.out) && LineReadable(line) && TarballVersion(target) && SumsOk(sums)
    requires Step(s, line, target, sums, bump).Ok?
    ensures Readable(Step(s, line, target, sums, bump).value.out)
  {
    assert '"' !in target by {
      forall i | 0 <= i < |target| ensures target[i] != '"' {
        assert VersionChar(target[i]);
      }
    }
  }

  lemma {:induction false} OutputIsReadable(lines: seq<Line>, target: string, sums: map<string, string>, bump: bool)
    requires Readable(lines) && TarballVersion(target) && SumsOk(sums) && Scan(lines, target, sums, bump).Ok?
    ensures Readable(Scan(lines, target, sums, bump).value.out)
  {
    if lines != [] {
      var init, line := lines[..|lines| - 1], lines[|lines| - 1];
      OutputIsReadable(init, target, sums, bump);
      StepIsReadable(Scan(init, target, sums, bump).value, line, target, sums, bump);
    }
  }

  /** Every line that names a version names the target. */
  predicate Names(line: Line, target: string) {
    && (line.Version? ==> line.version == target)
    && (line.UrlLine? && !line.address.Foreign? ==> line.address.version == target)
  }

  lemma {:induction false} DeclaredIsTarget(lines: seq<Line>, target: string)
    requires forall i :: 0 <= i < |lines| ==> Names(lines[i], target)
    ensures DeclaredVersion(lines).Some? ==> DeclaredVersion(lines).value == target
    ensures VersionFromUrls(lines).Some? ==> VersionFromUrls(lines).value == target
  {
    if lines != [] {
      assert Names(lines[0], target);
      DeclaredIsTarget(lines[1..], target);
    }
  }

  lemma {:induction false} OutputNamesTarget(lines: seq<Line>, target: string, sums: map<string, string>, bump: bool)
    requires Scan(lines, target, sums, bump).Ok?
    ensures var out := Scan(lines, target, sums, bump).value.out; forall i :: 0 <= i < |out| ==> Names(out[i], target)
  {
    if lines != [] {
      OutputNamesTarget(lines[..|lines| - 1], target, sums, bump);
    }
  }

  lemma ScanOneMore(lines: seq<Line>, line: Line, target: string, sums: map<string, string>, bump: bool)
    requires Scan(lines, target, sums, bump).Ok?
    ensures Scan(lines + [line], target, sums, bump)
            == Step(Scan(lines, target, sums, bump).value, line, target, sums, bump)
  {
    assert (lines + [line])[..|lines|] == lines;
  }

  lemma StepReproduces(s: State, t: State, line: Line, target: string, sums: map<string, string>, bump: bool)
    returns (after: Line)
    requires Step(s, line, target, sums, bump) == Ok(t) && !(bump && line.Revision?)
    ensures t.out == s.out + [after] && Step(s, after, target, sums, false) == Ok(t)
  {
    after := t.out[|s.out|];
  }

  /** Scanning the output again, with nothing to bump, reproduces every variable of the loop. */
  lemma {:induction false} ScanReproduces(lines: seq<Line>, target: string, sums: map<string, string>, bump: bool)
    requires Scan(lines, target, sums, bump).Ok?
    ensures Scan(Scan(lines, target, sums, bump).value.out, target, sums, false) == Scan(lines, target, sums, bump)
  {
    if lines != [] {
      var init, line := lines[..|lines| - 1], lines[|lines| - 1];
      ScanReproduces(init, target, sums, bump);
      var s := Scan(init, target, sums, bump).value;
      var t := Scan(lines, target, sums, bump).value;
      if !(bump && line.Revision?) {
        var after := StepReproduces(s, t, line, target, sums, bump);
        ScanOneMore(s.out, after, target, sums, false);
      }
    }
  }

  /**
   Bumping twice to the same version is bumping once, and the second time is not a real bump.
   The output still has the shape of a formula, so the second run sees these same lines.
   */
  lemma BumpIsIdempotent(lines: seq<Line>, target: string, sums: map<string, string>)
    requires Readable(lines) && TarballVersion(target) && SumsOk(sums) && Bumped(lines, target, sums).Ok?
    ensures var out := Bumped(lines, target, sums).value;
            Readable(out) && !IsBump(out, target) && Bumped(out, target, sums) == Ok(out)
  {
    var bump := IsBump(lines, target);
    OutputIsReadable(lines, target, sums, bump);
    ScanReproduces(lines, target, sums, bump);
    OutputNamesTarget(lines, target, sums, bump);
    DeclaredIsTarget(Bumped(lines, target, sums).value, target);
  }

  lemma DroppedOnABump(lines: seq<Line>, target: string, sums: map<string, string>, i: nat)
    requires Bumped(lines, target, sums).Ok? && IsBump(lines, target) && i < |Bumped(lines, target, sums).value|
    ensures !Bumped(lines, target, sums).value[i].Revision?
  {
    OnlyReleaseFieldsChange(lines, target, sums, true);
    CarriedKinds(Kept(lines, true), Bumped(lines, target, sums).value, target, sums, i);
    KeptHasNoRevision(lines, true, i);
  }

  lemma CarriedOther(kept: seq<Line>, out: seq<Line>, target: string, sums: map<string, string>, i: nat)
    requires CarriesAll(kept, out, target, sums) && i < |kept|
    ensures |out| == |kept| && (kept[i].Revision? ==> out[i] == kept[i])
  {
    assert Carries(kept[i], out[i], target, sums, Awaited(out[..i]));
  }

  lemma KeptOtherwise(lines: seq<Line>, target: string, sums: map<string, string>, i: nat)
    requires Bumped(lines, target, sums).Ok? && !IsBump(lines, target) && i < |lines|
    ensures var out := Bumped(lines, target, sums).value;
            |out| == |lines| && (lines[i].Revision? ==> out[i] == lines[i])
  {
    var out := Bumped(lines, target, sums).value;
    OnlyReleaseFieldsChange(lines, target, sums, false);
    KeptIsAll(lines);
    CarriedOther(lines, out, target, sums, i);
  }

  /** Revision lines are dropped exactly when the formula stated another version. */
  lemma RevisionsGoOnlyOnABump(lines: seq<Line>, target: string, sums: map<string, string>, i: nat)
    requires Bumped(lines, target, sums).Ok?
    ensures var out := Bumped(lines, target, sums).value;
            if IsBump(lines, target) then i < |out| ==> !out[i].Revision?
            else i < |lines| && lines[i].Revision? ==> i < |out| && out[i] == lines[i]
  {
    if IsBump(lines, target) {
      if i < |Bumped(lines, target, sums).value| {
        DroppedOnABump(lines, target, sums, i);
      }
    } else if i < |lines| {
      KeptOtherwise(lines, target, sums, i);
    }
  }

  /* ---- the tarball pattern ---- */

  predicate VersionChar(c: char) {
    '0' <= c <= '9' || 'A' <= c <= 'Z' || 'a' <= c <= 'z' || c == '.' || c == '-' || c == '+'
  }

  /** A version the pattern can read. */
  predicate TarballVersion(v: string) {
    v != "" && '0' <= v[0] <= '9' && forall i :: 0 <= i < |v| ==> VersionChar(v[i])
  }

  predicate OsName(s: string) {
    s != "" && forall i :: 0 <= i < |s| ==> 'a' <= s[i] <= 'z'
  }

  predicate ArchName(s: string) {
    s != "" && forall i :: 0 <= i < |s| ==> 'a' <= s[i] <= 'z' || '0' <= s[i] <= '9' || s[i] == '_'
  }

  datatype Tarball = Tarball(version: string, os: string, arch: string)

  function ReadArch(version: string, os: string, c: string): Option<Tarball> {
    var k := IndexOf(c, '.');
    if k == |c| || !ArchName(c[..k]) || !("tar.gz" <= c[k + 1..]) then None else Some(Tarball(version, os, c[..k]))
  }

  function ReadOs(version: string, b: string): Option<Tarball> {
    var j := IndexOf(b, '_');
    if j == |b| || !OsName(b[..j]) then None else ReadArch(version, b[..j], b[j + 1..])
  }

  function ReadVersion(a: string): Option<Tarball> {
    var i := IndexOf(a, '_');
    if i == |a| || !TarballVersion(a[..i]) then None else ReadOs(a[..i], a[i + 1..])
  }

  /** The pattern, matched at the front of a text; each class ends at the separator that follows it. */
  function ReadTarball(s: string): Option<Tarball> {
    if "dir2mcp_" <= s then ReadVersion(s[8..]) else None
  }

  lemma CutAt(a: string, rest: string, c: char)
    requires c !in a
    ensures var s := a + [c] + rest; IndexOf(s, c) == |a| && s[..|a|] == a && s[|a| + 1..] == rest
  {
    IndexOfFirst(a, rest, c);
  }

  lemma ArchIsRead(version: string, os: string, arch: string, rest: string)
    requires ArchName(arch)
    ensures ReadArch(version, os, arch + ['.'] + ("tar.gz" + rest)) == Some(Tarball(version, os, arch))
  {
    CutAt(arch, "tar.gz" + rest, '.');
  }

  lemma OsIsRead(version: string, os: string, c: string)
    requires OsName(os)
    ensures ReadOs(version, os + ['_'] + c) == ReadArch(version, os, c)
  {
    CutAt(os, c, '_');
  }

  lemma VersionIsRead(version: string, b: string)
    requires TarballVersion(version)
    ensures ReadVersion(version + ['_'] + b) == ReadOs(version, b)
  {
    CutAt(version, b, '_');
  }

  /** A rewritten name is read back as the new version on the same platform. */
  lemma NameIsReadBack(version: string, os: string, arch: string, rest: string)
    requires TarballVersion(version) && OsName(os) && ArchName(arch)
    ensures ReadTarball(NameOf(version, os, arch) + rest) == Some(Tarball(version, os, arch))
  {
    var c := arch + ['.'] + ("tar.gz" + rest);
    var a := version + ['_'] + (os + ['_'] + c);
    NameIsNested(version, os, arch, rest);
    assert ("dir2mcp_" + a)[8..] == a;
    VersionIsRead(version, os + ['_'] + c);
    OsIsRead(version, os, c);
    ArchIsRead(version, os, arch, rest);
  }

  lemma NameIsNested(version: string, os: string, arch: string, rest: string)
    ensures NameOf(version, os, arch) + rest
         == "dir2mcp_" + (version + ['_'] + (os + ['_'] + (arch + ['.'] + ("tar.gz" + rest))))
  {
    var t := ".tar.gz";
    assert t + rest == ['.'] + ("tar.gz" + rest);
    assert (arch + t) + rest == arch + ['.'] + ("tar.gz" + rest);
    assert (os + ['_'] + (arch + t)) + rest == os + ['_'] + ((arch + t) + rest);
    assert (version + ['_'] + (os + ['_'] + (arch + t))) + rest == version + ['_'] + ((os + ['_'] + (arch + t)) + rest);
  }
}
