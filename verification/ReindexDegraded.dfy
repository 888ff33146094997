/**
 Where the reindex protocol does not keep its promise, and exactly when: a new run staged
 under a stale commit marker, the backups such a run leaves over, a commit whose marker never
 reached the disk, index files the rebuild creates without a predecessor, and documents it is
 the first to hash.
 */
module ReindexDegraded {
  import opened Prelude
  import opened ReindexProtocol
  import opened ReindexSafety
  import opened ReindexSteps

  /** The directory after the staging loop handled `names`; an occupied slot stops it. */
  function Stage(d: Disk, names: seq<Name>): Disk
    decreases |names|
  {
    if names == [] || names[0] in d.backup then d
    else if names[0] in d.live then
      Stage(d.(live := d.live - {names[0]}, backup := d.backup[names[0] := d.live[names[0]]]), names[1..])
    else Stage(d, names[1..])
  }

  /** Whether the staging loop renames anything before it ends or refuses. */
  predicate Moves(d: Disk, names: seq<Name>) {
    names != [] && names[0] !in d.backup && (names[0] in d.live || Moves(d, names[1..]))
  }

  /** Staging that renames nothing leaves the directory alone; staging that does empties a slot. */
  lemma {:induction false} StageMoves(d: Disk, names: seq<Name>)
    ensures Stage(d, names).marker == d.marker
    ensures Stage(d, names).live.Keys <= d.live.Keys
    ensures Moves(d, names) <==> Stage(d, names).live != d.live
    decreases |names|
  {
    if names != [] && names[0] !in d.backup {
      if names[0] in d.live {
        var d' := d.(live := d.live - {names[0]}, backup := d.backup[names[0] := d.live[names[0]]]);
        StageMoves(d', names[1..]);
        assert names[0] !in Stage(d', names[1..]).live;
      } else {
        StageMoves(d, names[1..]);
      }
    }
  }

  lemma {:induction false} StageKeepsAdoptTarget(d: Disk, names: seq<Name>)
    requires !d.marker
    ensures RecoverDisk(Stage(d, names)) == RecoverDisk(d)
    decreases |names|
  {
    if names != [] && names[0] !in d.backup {
      if names[0] in d.live {
        var d' := d.(live := d.live - {names[0]}, backup := d.backup[names[0] := d.live[names[0]]]);
        assert d'.live + d'.backup == d.live + d.backup;
        StageKeepsAdoptTarget(d', names[1..]);
      } else {
        StageKeepsAdoptTarget(d, names[1..]);
      }
    }
  }

  /**
   A run that starts staging can be undone after a crash at every point of the loop exactly
   when no stale marker is present, or there is nothing to move: under a marker recovery
   discards the only copy of the files already moved aside.
   */
  lemma StagingIsSafeIffNoStaleMarker(d: Disk, names: seq<Name>)
    ensures (forall k :: 0 <= k <= |names| ==> RecoverDisk(Stage(d, names[..k])).live == RecoverDisk(d).live)
            <==> (!d.marker || !Moves(d, names))
  {
    forall k | 0 <= k <= |names|
      ensures !d.marker ==> RecoverDisk(Stage(d, names[..k])).live == RecoverDisk(d).live
      ensures d.marker && !Moves(d, names) ==> RecoverDisk(Stage(d, names[..k])).live == RecoverDisk(d).live
    {
      if !d.marker {
        StageKeepsAdoptTarget(d, names[..k]);
      } else if !Moves(d, names) {
        NoMoveInPrefix(d, names, k);
        StageMoves(d, names[..k]);
      }
    }
    if d.marker && Moves(d, names) {
      StageMoves(d, names);
      assert names[..|names|] == names;
      assert RecoverDisk(Stage(d, names[..|names|])).live != RecoverDisk(d).live;
    }
  }

  lemma {:induction false} NoMoveInPrefix(d: Disk, names: seq<Name>, k: nat)
    requires k <= |names| && !Moves(d, names)
    ensures !Moves(d, names[..k])
  {
    if k > 0 {
      assert names[..k][0] == names[0] && names[..k][1..] == names[1..][..k - 1];
      if names[0] !in d.backup {
        NoMoveInPrefix(d, names[1..], k - 1);
      }
    }
  }

  /* ---- the unlink loop of a commit, any of whose unlinks may fail ---- */

  /** The backups the first |oks| unlinks removed. */
  function Gone(names: seq<Name>, oks: seq<bool>): set<Name>
    requires |oks| <= |names|
  {
    set i | 0 <= i < |oks| && oks[i] :: names[i]
  }

  /** The directory after the commit loop tried the first |oks| unlinks. */
  function UnlinkFirst(d: Disk, names: seq<Name>, oks: seq<bool>): Disk
    requires |oks| <= |names|
  {
    d.(backup := d.backup - Gone(names, oks))
  }

  /** `live` holds one generation of `names`: all of them as in d.live, or all as in d.backup. */
  ghost predicate OneGeneration(d: Disk, names: seq<Name>, live: map<Name, File>) {
    || (forall i :: 0 <= i < |names| ==> At(live, names[i]) == At(d.live, names[i]))
    || (forall i :: 0 <= i < |names| ==> At(live, names[i]) == At(d.backup, names[i]))
  }

  ghost predicate Superseded(d: Disk, names: seq<Name>) {
    && (forall i :: 0 <= i < |names| ==> names[i] in d.backup && At(d.live, names[i]) != At(d.backup, names[i]))
    && (forall i, j :: 0 <= i < j < |names| ==> names[i] != names[j])
  }

  lemma RecoveredAfterUnlinks(d: Disk, names: seq<Name>, oks: seq<bool>, i: nat)
    requires Superseded(d, names) && |oks| <= |names| && i < |names|
    ensures names[i] in Gone(names, oks) <==> i < |oks| && oks[i]
    ensures var live := RecoverDisk(UnlinkFirst(d, names, oks)).live;
            At(live, names[i]) ==
              if d.marker || (i < |oks| && oks[i]) then At(d.live, names[i]) else At(d.backup, names[i])
  {
    if names[i] in Gone(names, oks) {
      var j :| 0 <= j < |oks| && oks[j] && names[j] == names[i];
      assert j == i;
    }
  }

  predicate SomeGone(oks: seq<bool>) {
    exists i :: 0 <= i < |oks| && oks[i]
  }

  predicate AllGone(oks: seq<bool>) {
    forall i :: 0 <= i < |oks| ==> oks[i]
  }

  /** One crash point of the commit loop: a mixture exactly when an unmarked loop removed some backups and not all. */
  lemma CommitCrashPoint(d: Disk, names: seq<Name>, oks: seq<bool>)
    requires Superseded(d, names) && |oks| <= |names|
    ensures OneGeneration(d, names, RecoverDisk(UnlinkFirst(d, names, oks)).live)
            <==> (d.marker || !SomeGone(oks) || (|oks| == |names| && AllGone(oks)))
  {
    var live := RecoverDisk(UnlinkFirst(d, names, oks)).live;
    forall i | 0 <= i < |names| ensures
      At(live, names[i]) == if d.marker || (i < |oks| && oks[i]) then At(d.live, names[i]) else At(d.backup, names[i])
    {
      RecoveredAfterUnlinks(d, names, oks, i);
    }
    if !d.marker && SomeGone(oks) && !(|oks| == |names| && AllGone(oks)) {
      var i :| 0 <= i < |oks| && oks[i];
      var j :| 0 <= j < |names| && !(j < |oks| && oks[j]);
      assert At(d.live, names[i]) != At(d.backup, names[i]);
      assert At(d.live, names[j]) != At(d.backup, names[j]);
    }
  }

  /**
   The unlink loop survives a crash at each of its points exactly when the marker is down,
   or there is one backup, or none of its unlinks works.
   */
  lemma CommitIsSafeIffMarkedOrSingle(d: Disk, names: seq<Name>, oks: seq<bool>)
    requires Superseded(d, names) && |oks| == |names|
    ensures (forall k :: 0 <= k <= |names| ==>
               OneGeneration(d, names, RecoverDisk(UnlinkFirst(d, names, oks[..k])).live))
            <==> (d.marker || |names| <= 1 || !SomeGone(oks))
  {
    forall k | 0 <= k <= |names|
      ensures OneGeneration(d, names, RecoverDisk(UnlinkFirst(d, names, oks[..k])).live)
              <==> (d.marker || !SomeGone(oks[..k]) || (k == |names| && AllGone(oks[..k])))
    {
      CommitCrashPoint(d, names, oks[..k]);
    }
    if SomeGone(oks) {
      var i := FirstGone(oks);
      assert oks[..i + 1][i];
      assert |names| > 1 && i + 1 == |names| ==> !oks[..i + 1][0];
      assert !d.marker && |names| > 1 ==>
          !OneGeneration(d, names, RecoverDisk(UnlinkFirst(d, names, oks[..i + 1])).live);
    }
  }

  lemma {:induction false} FirstGone(oks: seq<bool>) returns (i: nat)
    requires SomeGone(oks)
    ensures i < |oks| && oks[i] && forall j :: 0 <= j < i ==> !oks[j]
  {
    if oks[0] {
      i := 0;
    } else {
      var k :| 0 <= k < |oks| && oks[k];
      assert oks[1..][k - 1];
      i := FirstGone(oks[1..]);
      i := i + 1;
      assert forall j :: 1 <= j < i ==> oks[j] == oks[1..][j - 1];
    }
  }

  /* ---- a whole commit without a marker ---- */

  function Unlinks(oks: seq<bool>): (steps: seq<Step>)
    ensures |steps| == |oks| && forall i :: 0 <= i < |oks| ==> steps[i] == Unlink(oks[i])
  {
    if oks == [] then [] else Unlinks(oks[..|oks| - 1]) + [Unlink(oks[|oks| - 1])]
  }

  /** The unmarked commit, up to the unlinks with these outcomes. */
  function UnmarkedSteps(oks: seq<bool>): seq<Step> {
    [Mark(false)] + Unlinks(oks)
  }

  /** The unmarked commit to its end: what removes or keeps the marker, the snapshot, the store. */
  function UnmarkedCommit(oks: seq<bool>, dropped: bool): seq<Step> {
    UnmarkedSteps(oks) + [if AllGone(oks) then Unmark(true) else KeepMarker, DropSnapshot(dropped), CloseStore]
  }

  /** A rebuild is done and the marker that should record it is not going to reach the disk. */
  ghost predicate AboutToCommit(s: State) {
    Inv(s) && s.p.Rebuilding? && s.p.moved != [] && !s.w.disk.marker
  }

  /** Where the first |oks| unlinks of an unmarked commit lead. */
  function AfterUnlinks(s: State, oks: seq<bool>): State
    requires s.p.Rebuilding? && |oks| <= |s.p.moved|
  {
    State(World(UnlinkFirst(s.w.disk, s.p.moved, oks), s.w.store),
          s.e.(unmarked := true, rebuilt := s.w.disk.live),
          Unlinking(s.p.moved[|oks|..], !AllGone(oks)))
  }

  lemma MarkFails(s: State)
    requires AboutToCommit(s)
    ensures Enabled(s, Mark(false)) && Do(s, Mark(false)) == AfterUnlinks(s, [])
  {
    assert s.p.moved[0..] == s.p.moved;
    assert s.w.disk.backup - Gone(s.p.moved, []) == s.w.disk.backup;
  }

  lemma NextUnlink(s: State, oks: seq<bool>)
    requires AboutToCommit(s) && 0 < |oks| <= |s.p.moved|
    ensures var init, a := oks[..|oks| - 1], Unlink(oks[|oks| - 1]);
            Enabled(AfterUnlinks(s, init), a) && Do(AfterUnlinks(s, init), a) == AfterUnlinks(s, oks)
  {
    var moved, k := s.p.moved, |oks| - 1;
    assert moved[k..][0] == moved[k] && moved[k..][1..] == moved[k + 1..];
    GoneGrows(moved, oks);
    assert AllGone(oks) <==> AllGone(oks[..k]) && oks[k];
    var b, gone := s.w.disk.backup, Gone(moved, oks[..k]);
    assert b - gone - {moved[k]} == b - (gone + {moved[k]});
  }

  lemma {:induction false} UnlinksTry(s: State, oks: seq<bool>)
    requires AboutToCommit(s) && |oks| <= |s.p.moved|
    ensures Legal(s, UnmarkedSteps(oks)) && Run(s, UnmarkedSteps(oks)) == AfterUnlinks(s, oks)
    decreases |oks|
  {
    if oks == [] {
      assert UnmarkedSteps(oks) == [] + [Mark(false)];
      MarkFails(s);
      OneMore(s, [], Mark(false));
    } else {
      var init, a := oks[..|oks| - 1], Unlink(oks[|oks| - 1]);
      UnlinksTry(s, init);
      NextUnlink(s, oks);
      assert UnmarkedSteps(oks) == UnmarkedSteps(init) + [a];
      OneMore(s, UnmarkedSteps(init), a);
    }
  }

  lemma GoneGrows(names: seq<Name>, oks: seq<bool>)
    requires 0 < |oks| <= |names|
    ensures var k := |oks| - 1; Gone(names, oks) == Gone(names, oks[..k]) + if oks[k] then {names[k]} else {}
  {
    var k := |oks| - 1;
    forall n | n in Gone(names, oks) ensures n in Gone(names, oks[..k]) + if oks[k] then {names[k]} else {} {
      var i :| 0 <= i < |oks| && oks[i] && names[i] == n;
      assert i < k ==> oks[..k][i];
    }
  }

  lemma DropsAndCloses(t: State, dropped: bool)
    requires t.p.Discarding?
    ensures var store := if dropped then t.w.store.(snap := None) else t.w.store;
            && Legal(t, [DropSnapshot(dropped), CloseStore])
            && Run(t, [DropSnapshot(dropped), CloseStore]) == t.(w := World(t.w.disk, store), p := Down)
  {
    Two(t, DropSnapshot(dropped), CloseStore);
  }

  lemma LoopEnds(s: State, oks: seq<bool>)
    requires AboutToCommit(s) && |oks| == |s.p.moved|
    ensures var t, over := AfterUnlinks(s, oks), if AllGone(oks) then Unmark(true) else KeepMarker;
            Enabled(t, over) && Do(t, over) == t.(p := Discarding)
  {}

  lemma UnmarkedCommitEnds(s: State, oks: seq<bool>, dropped: bool)
    requires AboutToCommit(s) && |oks| == |s.p.moved|
    ensures Legal(s, UnmarkedCommit(oks, dropped))
    ensures Run(s, UnmarkedCommit(oks, dropped)) == State(
              World(UnlinkFirst(s.w.disk, s.p.moved, oks),
                    if dropped then s.w.store.(snap := None) else s.w.store),
              s.e.(unmarked := true, rebuilt := s.w.disk.live), Down)
  {
    var steps, over := UnmarkedSteps(oks), if AllGone(oks) then Unmark(true) else KeepMarker;
    var t := AfterUnlinks(s, oks);
    UnlinksTry(s, oks);
    LoopEnds(s, oks);
    OneMore(s, steps, over);
    DropsAndCloses(t.(p := Discarding), dropped);
    Then(s, steps + [over], [DropSnapshot(dropped), CloseStore]);
    assert UnmarkedCommit(oks, dropped) == steps + [over] + [DropSnapshot(dropped), CloseStore];
  }

  /** No hash is newer than the index: the index is the new one, or no hash is new. */
  ghost predicate GateHolds(s: State, w: World)
    requires s.p.Rebuilding?
  {
    || (forall i :: 0 <= i < |s.p.moved| ==> At(w.disk.live, s.p.moved[i]) == At(s.w.disk.live, s.p.moved[i]))
    || Ahead(w.store.docs, s.e.gen) == {}
  }

  /** Putting the snapshot back leaves no newer hash: it holds none, and holds every document hashed since. */
  ghost predicate SnapshotUndoes(s: State) {
    && Ahead(s.e.docs0, s.e.gen) !! s.w.store.docs.Keys
    && Ahead(s.w.store.docs, s.e.gen) <= s.e.docs0.Keys
  }

  /**
   A commit without a marker leaves the gate behind the index exactly when every unlink
   worked, or the snapshot was dropped and the rebuild had hashed nothing, or the snapshot
   stayed and undoes what it had hashed. In a corpus without late documents it always does.
   */
  lemma UnmarkedGateHoldsIff(s: State, oks: seq<bool>, dropped: bool)
    requires AboutToCommit(s) && Superseded(s.w.disk, s.p.moved) && |oks| == |s.p.moved|
    ensures var newHashes := Ahead(s.w.store.docs, s.e.gen);
            var holds := GateHolds(s, RecoverWorld(Run(s, UnmarkedCommit(oks, dropped)).w));
            && (holds <==> AllGone(oks) || (if dropped then newHashes == {} else SnapshotUndoes(s)))
            && (s.e.late == {} ==> (holds <==> AllGone(oks) || !dropped || newHashes == {}))
  {
    UnmarkedCommitEnds(s, oks, dropped);
    var w := RecoverWorld(Run(s, UnmarkedCommit(oks, dropped)).w);
    NewFilesIff(s, oks);
    assert w.disk == RecoverDisk(UnlinkFirst(s.w.disk, s.p.moved, oks));
    assert w.store.docs == HashesLeft(s, dropped);
    NothingNewIff(s, dropped);
  }

  /** The hashes a recovery gives when the snapshot was dropped, or was not. */
  function HashesLeft(s: State, dropped: bool): Hashes {
    if dropped then s.w.store.docs else Overlay(s.w.store.docs, s.e.docs0)
  }

  lemma NothingNewIff(s: State, dropped: bool)
    requires AboutToCommit(s)
    ensures var newHashes := Ahead(s.w.store.docs, s.e.gen);
            var nothingNew := Ahead(HashesLeft(s, dropped), s.e.gen) == {};
            && (nothingNew <==> if dropped then newHashes == {} else SnapshotUndoes(s))
            && (s.e.late == {} ==> (nothingNew <==> !dropped || newHashes == {}))
  {
    if !dropped {
      UndoneIff(s.w.store.docs, s.e.docs0, s.e.gen);
    }
    if s.e.late == {} {
      NothingLate(s);
    }
  }

  lemma NewFilesIff(s: State, oks: seq<bool>)
    requires AboutToCommit(s) && Superseded(s.w.disk, s.p.moved) && |oks| == |s.p.moved|
    ensures var live := RecoverDisk(UnlinkFirst(s.w.disk, s.p.moved, oks)).live;
            (forall i :: 0 <= i < |s.p.moved| ==> At(live, s.p.moved[i]) == At(s.w.disk.live, s.p.moved[i]))
            <==> AllGone(oks)
  {
    var live := RecoverDisk(UnlinkFirst(s.w.disk, s.p.moved, oks)).live;
    forall i | 0 <= i < |oks| ensures At(live, s.p.moved[i]) == At(s.w.disk.live, s.p.moved[i]) <==> oks[i] {
      RecoveredAfterUnlinks(s.w.disk, s.p.moved, oks, i);
    }
  }

  lemma UndoneIff(docs: Hashes, snap: Hashes, g: nat)
    ensures Ahead(Overlay(docs, snap), g) == {}
            <==> Ahead(snap, g) !! docs.Keys && Ahead(docs, g) <= snap.Keys
  {
    var back, rest := Ahead(snap, g) * docs.Keys, Ahead(docs, g) - snap.Keys;
    assert Ahead(Overlay(docs, snap), g) == back + rest;
    assert back + rest == {} <==> back == {} && rest == {};
    forall x | x in Ahead(docs, g) && rest == {} ensures x in snap.Keys {
      assert x !in rest;
    }
  }

  lemma NothingLate(s: State)
    requires AboutToCommit(s) && s.e.late == {}
    ensures SnapshotUndoes(s)
  {
    forall x | x in Ahead(s.e.docs0, s.e.gen) ensures false {}
    forall x | x in Ahead(s.w.store.docs, s.e.gen) ensures x in s.e.docs0 {}
  }

  /** The files of an unmarked commit at each crash point of its loop, from the state it starts in. */
  lemma UnmarkedFilesMixIff(s: State, oks: seq<bool>)
    requires AboutToCommit(s) && Superseded(s.w.disk, s.p.moved) && |oks| <= |s.p.moved|
    ensures OneGeneration(s.w.disk, s.p.moved, RecoverDisk(Run(s, UnmarkedSteps(oks)).w.disk).live)
            <==> (!SomeGone(oks) || (|oks| == |s.p.moved| && AllGone(oks)))
  {
    UnlinksTry(s, oks);
    CommitCrashPoint(s.w.disk, s.p.moved, oks);
  }

  /* ---- backups that were there before the run ---- */

  /** The steps of one run, from its beginning. */
  predicate OneRun(log: seq<Step>) {
    log != [] && log[0].Begin? && forall i :: 1 <= i < |log| ==> !log[i].Begin?
  }

  /** What the steps last wrote under `n`, or else what was there before them. */
  function Latest(live: map<Name, File>, log: seq<Step>, n: Name): Option<File> {
    if log == [] then At(live, n)
    else
      var a := log[|log| - 1];
      if a.Write? && a.n == n then Some(a.f) else Latest(live, log[..|log| - 1], n)
  }

  predicate InRun(p: Phase) {
    p.Snapped? || p.Staging? || p.Rebuilding? || p.Unlinking?
  }

  /** The run in `t` has left the backups of `s` where they were, and written only live files over them. */
  ghost predicate Carries(s: State, log: seq<Step>, t: State) {
    InRun(t.p) ==>
      && t.e.residue == s.w.disk.backup.Keys
      && (forall n :: n in s.w.disk.backup ==>
            At(t.w.disk.backup, n) == At(s.w.disk.backup, n) && At(t.w.disk.live, n) == Latest(s.w.disk.live, log, n))
      && (t.p.Unlinking? ==>
            && t.w.disk.live == t.e.rebuilt && Elems(t.p.rest) <= t.e.staged
            && (!t.p.failed ==> t.w.disk.backup.Keys <= Elems(t.p.rest) + t.e.residue))
  }

  lemma BeginCarries(s: State, a: Step)
    requires Inv(s) && Enabled(s, a) && a.Begin?
    ensures Inv(Do(s, a)) && Carries(s, [a], Do(s, a))
  {
    StepKeepsInv(s, a);
    assert [a][..0] == [];
    forall n ensures Latest(s.w.disk.live, [a], n) == At(s.w.disk.live, n) {}
  }

  lemma NextCarries(s: State, log: seq<Step>, t: State, a: Step)
    requires Inv(t) && Enabled(t, a) && !a.Begin? && Carries(s, log, t)
    ensures Carries(s, log + [a], Do(t, a))
  {
    assert (log + [a])[..|log|] == log;
    if a.Unlink? {
      UnlinkCarries(s, log, t, a);
    } else if a.MoveAside? || a.Write? {
      FileCarries(s, log, t, a);
    } else {
      assert Do(t, a).w.disk.live == t.w.disk.live || !InRun(Do(t, a).p);
    }
  }

  lemma UnlinkCarries(s: State, log: seq<Step>, t: State, a: Step)
    requires Inv(t) && Enabled(t, a) && a.Unlink? && Carries(s, log, t)
    ensures Carries(s, log + [a], Do(t, a))
  {
    assert (log + [a])[..|log|] == log;
    var rest := t.p.rest;
    assert rest == [rest[0]] + rest[1..];
    assert rest[0] in Elems(rest) && Elems(rest) == Elems(rest[1..]) + {rest[0]};
  }

  lemma FileCarries(s: State, log: seq<Step>, t: State, a: Step)
    requires Inv(t) && Enabled(t, a) && (a.MoveAside? || a.Write?) && Carries(s, log, t)
    ensures Carries(s, log + [a], Do(t, a))
  {
    assert (log + [a])[..|log|] == log;
  }

  lemma {:induction false} RunCarries(s: State, log: seq<Step>)
    requires Inv(s) && Legal(s, log) && OneRun(log)
    ensures Inv(Run(s, log)) && Carries(s, log, Run(s, log))
    decreases |log|
  {
    var init, a := log[..|log| - 1], log[|log| - 1];
    assert log == init + [a];
    if init == [] {
      BeginCarries(s, a);
    } else {
      RunCarries(s, init);
      StepKeepsInv(Run(s, init), a);
      NextCarries(s, init, Run(s, init), a);
    }
  }

  /**
   A run that removes the marker leaves every backup that was there before it. The recovery
   that follows then gives the new generation exactly when each of them equals what the run
   last wrote under its name or, where it wrote nothing, what was live when the run began.
   */
  lemma LeftoversComeBackIff(s: State, log: seq<Step>)
    requires Inv(s) && Legal(s, log) && OneRun(log) && log[|log| - 1] == Unmark(true)
    ensures var t := Run(s, log);
            && t.w.disk.backup == s.w.disk.backup && t.w.disk.live == t.e.rebuilt && !t.w.disk.marker
            && (RecoverDisk(t.w.disk).live == t.e.rebuilt <==>
                forall n :: n in s.w.disk.backup ==> Latest(s.w.disk.live, log, n) == Some(s.w.disk.backup[n]))
  {
    var init, over, t := log[..|log| - 1], log[|log| - 1], Run(s, log);
    assert log == init + [over];
    RunCarries(s, init);
    StayBehind(s, init, Run(s, init));
    forall n ensures Latest(s.w.disk.live, log, n) == Latest(s.w.disk.live, init, n) {}
    AddsNothingIff(t.w.disk.live, s.w.disk.backup);
  }

  lemma AddsNothingIff(live: map<Name, File>, leftovers: map<Name, File>)
    ensures live + leftovers == live <==> forall n :: n in leftovers ==> At(live, n) == Some(leftovers[n])
  {
    if live + leftovers == live {
      forall n | n in leftovers ensures At(live, n) == Some(leftovers[n]) {
        assert (live + leftovers)[n] == leftovers[n];
      }
    }
    if forall n :: n in leftovers ==> At(live, n) == Some(leftovers[n]) {
      forall n ensures At(live + leftovers, n) == At(live, n) {}
      SameFiles(live + leftovers, live);
    }
  }

  lemma StayBehind(s: State, log: seq<Step>, t: State)
    requires Inv(t) && Carries(s, log, t) && t.p == Unlinking([], false)
    ensures t.w.disk.backup == s.w.disk.backup
  {
    assert Elems([]) == {};
    forall n ensures At(t.w.disk.backup, n) == At(s.w.disk.backup, n) {
      assert n in t.w.disk.backup ==> n in s.w.disk.backup;
    }
    SameFiles(t.w.disk.backup, s.w.disk.backup);
  }

  lemma {:induction false} NothingWritten(live: map<Name, File>, log: seq<Step>, n: Name)
    requires forall i :: 0 <= i < |log| && log[i].Write? ==> log[i].n != n
    ensures Latest(live, log, n) == At(live, n)
  {
    if log != [] {
      NothingWritten(live, log[..|log| - 1], n);
    }
  }

  /**
   A run that keeps off the names of those backups: whether the next recovery undoes part of
   its commit is settled when it begins, by whether each of them equals the live file.
   */
  lemma UntouchedLeftoversComeBackIff(s: State, log: seq<Step>)
    requires Inv(s) && Legal(s, log) && OneRun(log) && log[|log| - 1] == Unmark(true)
    requires forall i :: 0 <= i < |log| && log[i].Write? ==> log[i].n !in s.w.disk.backup
    ensures RecoverDisk(Run(s, log).w.disk).live == Run(s, log).e.rebuilt <==>
            forall n :: n in s.w.disk.backup ==> At(s.w.disk.live, n) == Some(s.w.disk.backup[n])
  {
    LeftoversComeBackIff(s, log);
    forall n | n in s.w.disk.backup ensures Latest(s.w.disk.live, log, n) == At(s.w.disk.live, n) {
      NothingWritten(s.w.disk.live, log, n);
    }
  }

  /**
   A crash right after the rebuild hashed document `x` leaves the gate behind the index
   exactly when the snapshot holds `x`: a document new to the corpus keeps its new hash.
   */
  lemma GateSurvivesIffSnapshotHolds(s: State, x: Doc)
    requires Inv(s) && s.p.Rebuilding? && s.e.late == {}
    ensures Enabled(s, SetHash(x, true))
    ensures StampsAtMost(RecoverStore(Do(s, SetHash(x, true)).w.store).docs, s.e.gen)
            <==> x in s.e.docs0
  {
    var st := Do(s, SetHash(x, true)).w.store;
    OverlayKeeps(st.docs, s.e.docs0);
    var docs := RecoverStore(st).docs;
    assert st.docs[x] == Some(s.e.gen + 1);
    assert x in docs;
    forall y | y in docs && y != x ensures StampAtMost(docs[y], s.e.gen) {
      assert y in s.w.store.docs;
    }
  }

  /**
   A crash right after the rebuild wrote index file `n` rolls the directory back exactly
   when `n` was moved aside, or the write left what was there before.
   */
  lemma WriteIsUndoneIffStaged(s: State, n: Name, f: File)
    requires Inv(s) && s.p.Rebuilding? && s.e.dirty == {} && !s.w.disk.marker
    ensures Enabled(s, Write(n, f))
    ensures RecoverDisk(Do(s, Write(n, f)).w.disk).live == s.e.base
            <==> (n in s.e.staged || At(s.e.base, n) == Some(f))
  {
    var t := Do(s, Write(n, f));
    StepKeepsInv(s, Write(n, f));
    RollbackIsExactIffDirtyUnchanged(t);
    assert t.e.dirty == if n in s.e.staged then {} else {n};
  }
}
