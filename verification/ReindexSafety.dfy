/**
 What every run of the reindex protocol keeps, whatever crashes and whatever fails:
 the invariant of ReindexProtocol, and the theorems a complete recovery gets from it.
 */
module ReindexSafety {
  import opened Prelude
  import opened ReindexProtocol

  lemma OverlayKeeps(docs: Hashes, snap: Hashes)
    ensures AgreeOn(Overlay(docs, snap), snap)
    ensures Overlay(docs, snap).Keys == docs.Keys
    ensures forall x :: x in docs && x !in snap ==> Overlay(docs, snap)[x] == docs[x]
  {}

  lemma RecoveryStep(s: State, a: Step)
    requires Inv(s) && Enabled(s, a)
    requires s.p.Down? || s.p.Adopting? || s.p.Finishing?
    ensures Inv(Do(s, a))
  {
    if a.Adopt? && a.ok {
      AdoptStep(s, a.n);
    } else if a.Discard? && a.ok {
      DiscardStep(s, a.n);
    } else {
      SameDisk(s, Do(s, a));
    }
  }

  lemma AdoptStep(s: State, n: Name)
    requires Inv(s) && Enabled(s, Adopt(n, true))
    ensures Inv(Do(s, Adopt(n, true)))
  {
    var s' := Do(s, Adopt(n, true));
    forall m | !s.e.committed && !s.e.unmarked && Held(s.w.disk, s.e, m) ensures Held(s'.w.disk, s.e, m) {}
    forall m | !s.e.committed && s.e.unmarked && EitherGeneration(s.w.disk.live, s.e, m)
      ensures EitherGeneration(s'.w.disk.live, s.e, m)
    {}
  }

  lemma DiscardStep(s: State, n: Name)
    requires Inv(s) && Enabled(s, Discard(n, true))
    ensures Inv(Do(s, Discard(n, true)))
  {
    var s' := Do(s, Discard(n, true));
    forall m | !s.e.committed && m !in s'.e.dirty && m !in s'.e.lost ensures Held(s'.w.disk, s'.e, m) {
      assert Held(s.w.disk, s.e, m);
    }
  }

  /** A step that leaves the disk and what it is measured by alone keeps the disk's half. */
  lemma SameDisk(s: State, s': State)
    requires Core(s.w, s.e)
    requires s'.w.disk.live == s.w.disk.live && s'.w.disk.backup == s.w.disk.backup
    requires s'.e == s.e
    ensures Backups(s'.w.disk, s'.e)
    ensures !s.e.committed && !s.e.unmarked ==>
              forall n :: n !in s.e.dirty && n !in s.e.lost ==> Held(s'.w.disk, s'.e, n)
    ensures s.e.unmarked && !s.e.committed ==> forall n :: EitherGeneration(s'.w.disk.live, s'.e, n)
  {
    forall n | !s.e.committed && !s.e.unmarked && n !in s.e.dirty && n !in s.e.lost ensures Held(s'.w.disk, s'.e, n) {
      assert Held(s.w.disk, s.e, n);
    }
    forall n | s.e.unmarked && !s.e.committed ensures EitherGeneration(s'.w.disk.live, s'.e, n) {
      assert EitherGeneration(s.w.disk.live, s.e, n);
    }
  }

  lemma RehashStep(s: State, a: Step)
    requires Inv(s) && Enabled(s, a)
    requires s.p.Rehash? || s.p.UndoHash?
    ensures Inv(Do(s, a))
  {
    if a.RestoreUpdate? && a.ok {
      OverlayKeeps(s.w.store.docs, s.w.store.snap.value);
    }
    SameDisk(s, Do(s, a));
  }

  lemma BeginStep(s: State, a: Step)
    requires Inv(s) && Enabled(s, a) && a.Begin?
    ensures Inv(Do(s, a))
  {
    var e' := BeginEpoch(s);
    assert LateOnly(s.w.store.docs, e');
    forall n ensures Held(s.w.disk, e', n) {}
    assert Elems([]) == {};
  }

  lemma StagingStep(s: State, a: Step)
    requires Inv(s) && Enabled(s, a)
    requires s.p.Ready? || s.p.Snapped? || s.p.Staging?
    ensures Inv(Do(s, a))
  {
    if a.Begin? {
      BeginStep(s, a);
    } else if a.MoveAside? {
      MoveStep(s, a);
    } else {
      SameDisk(s, Do(s, a));
    }
  }

  lemma MoveStep(s: State, a: Step)
    requires Inv(s) && Enabled(s, a) && a.MoveAside?
    ensures Inv(Do(s, a))
  {
    var s' := Do(s, a);
    var n := s.p.rest[0];
    assert Held(s.w.disk, s.e, n);
    forall m | m !in s'.e.dirty && m !in s'.e.lost ensures Held(s'.w.disk, s'.e, m) {
      assert Held(s.w.disk, s.e, m);
    }
    assert Elems(s.p.moved + [n]) == Elems(s.p.moved) + {n};
  }

  lemma WriteStep(s: State, a: Step)
    requires Inv(s) && Enabled(s, a) && a.Write?
    ensures Inv(Do(s, a))
  {
    var s' := Do(s, a);
    forall m | m !in s'.e.dirty && m !in s'.e.lost ensures Held(s'.w.disk, s'.e, m) {
      assert Held(s.w.disk, s.e, m);
    }
  }

  lemma CommitPoint(s: State, a: Step)
    requires Inv(s) && Enabled(s, a) && (a.Mark? || a.NothingToCommit?)
    ensures Inv(Do(s, a))
  {
    forall x | x in s.w.store.docs ensures StampAtMost(s.w.store.docs[x], s.e.gen + 1) {}
    forall x | x in s.e.docs0 ensures StampAtMost(s.e.docs0[x], s.e.gen + 1) {}
    forall n ensures EitherGeneration(s.w.disk.live, s.e.(rebuilt := s.w.disk.live), n) {}
    assert a.NothingToCommit? ==> Elems(s.p.moved) == {};
  }

  lemma RebuildStep(s: State, a: Step)
    requires Inv(s) && Enabled(s, a)
    requires s.p.Rebuilding? || s.p.UndoClose? || s.p.PutBack?
    ensures Inv(Do(s, a))
  {
    if a.Write? {
      WriteStep(s, a);
    } else if a.Mark? || a.NothingToCommit? {
      CommitPoint(s, a);
    } else if a.Restore? && a.ok {
      PutBackStep(s, a);
    } else {
      HashStep(s, a);
    }
  }

  lemma PutBackStep(s: State, a: Step)
    requires Inv(s) && Enabled(s, a) && a.Restore?
    ensures Inv(Do(s, a))
  {
    var s' := Do(s, a);
    assert s.p.rest[0] in Elems(s.p.rest);
    forall n | n in Elems(s'.p.rest) ensures n in Elems(s.p.rest) {}
    forall m | m !in s.e.dirty && m !in s.e.lost ensures Held(s'.w.disk, s'.e, m) {
      assert Held(s.w.disk, s.e, m);
    }
  }

  lemma HashStep(s: State, a: Step)
    requires Inv(s) && Enabled(s, a)
    requires s.p.Rebuilding? || s.p.UndoClose? || s.p.PutBack?
    requires !a.Write? && !a.Mark? && !a.NothingToCommit? && (a.Restore? ==> !a.ok)
    ensures Inv(Do(s, a))
  {
    var s' := Do(s, a);
    SameDisk(s, s'.(e := s.e));
    forall m | !s.e.committed && !s.e.unmarked && m !in s.e.dirty && m !in s.e.lost
      ensures Held(s'.w.disk, s'.e, m)
    {
      assert Held(s.w.disk, s.e, m);
    }
    if a.Restore? {
      forall n | n in Elems(s'.p.rest) ensures n in Elems(s.p.rest) {}
    }
  }

  lemma CommitStep(s: State, a: Step)
    requires Inv(s) && Enabled(s, a)
    requires s.p.Unlinking? || s.p.Discarding? || s.p.Closing?
    ensures Inv(Do(s, a))
  {
    if a.Unlink? {
      UnlinkStep(s, a);
    } else {
      SameDisk(s, Do(s, a));
    }
  }

  lemma UnlinkStep(s: State, a: Step)
    requires Inv(s) && Enabled(s, a) && a.Unlink?
    ensures Inv(Do(s, a))
  {
    var s' := Do(s, a);
    forall n | s.e.unmarked && !s.e.committed ensures EitherGeneration(s'.w.disk.live, s'.e, n) {
      assert EitherGeneration(s.w.disk.live, s.e, n);
    }
    forall n | n in Elems(s.p.rest) ensures n in Elems(s'.p.rest) || n == s.p.rest[0] {
      var i :| 0 <= i < |s.p.rest| && s.p.rest[i] == n;
      assert i > 0 ==> s.p.rest[1..][i - 1] == n;
    }
  }

  /** Every step of the protocol, whatever its outcome, keeps the invariant. */
  lemma StepKeepsInv(s: State, a: Step)
    requires Inv(s) && Enabled(s, a)
    ensures Inv(Do(s, a))
  {
    if a.Crash? {
      SameDisk(s, Do(s, a));
    } else if s.p.Down? || s.p.Adopting? || s.p.Finishing? {
      RecoveryStep(s, a);
    } else if s.p.Rehash? || s.p.UndoHash? {
      RehashStep(s, a);
    } else if s.p.Ready? || s.p.Snapped? || s.p.Staging? {
      StagingStep(s, a);
    } else if s.p.Rebuilding? || s.p.UndoClose? || s.p.PutBack? {
      RebuildStep(s, a);
    } else {
      CommitStep(s, a);
    }
  }

  /** What holds at one point of a behaviour holds from there on. */
  lemma {:induction false} BehaviourKeepsInv(hist: seq<State>, log: seq<Step>, m: nat, k: nat)
    requires Behaviour(hist, log) && m <= k < |hist| && Inv(hist[m])
    ensures Inv(hist[k])
  {
    if m < k {
      BehaviourKeepsInv(hist, log, m, k - 1);
      assert NextAt(hist, log, k - 1);
      StepKeepsInv(hist[k - 1], log[k - 1]);
    }
  }

  /**
   The invariant holds at every point of every sequence of reindex runs, crashes and
   recoveries, whichever steps fail and whether or not a commit marker reaches the disk.
   */
  lemma EveryRunKeepsInv(hist: seq<State>, log: seq<Step>, k: nat)
    requires Behaviour(hist, log) && Settled(hist[0]) && k < |hist|
    ensures Inv(hist[k])
  {
    forall n ensures Held(hist[0].w.disk, hist[0].e, n) {}
    BehaviourKeepsInv(hist, log, 0, k);
  }

  /* ---- theorems about a complete recovery ---- */

  /** Every name outside `skip` is live exactly as in `files`, absent names included. */
  ghost predicate Generation(live: map<Name, File>, files: map<Name, File>, skip: set<Name>) {
    forall n :: n !in skip ==> At(live, n) == At(files, n)
  }

  /** The moved-aside names whose only copy a recovery would discard: those of a run under a stale marker. */
  function Doomed(t: State): set<Name> {
    if t.w.disk.marker then t.w.disk.backup.Keys * t.e.staged else {}
  }

  /**
   Whatever the crash, a complete recovery leaves one whole generation: the new one once the
   commit point is passed with a marker, the old one before. It cannot restore what the
   rebuild wrote without moving a predecessor aside, nor what a stale marker made it discard;
   and it brings back backups that were there before the run. A commit without a marker
   leaves each name in one of its two generations.
   */
  lemma RecoveryIsOneGeneration(hist: seq<State>, log: seq<Step>, k: nat)
    requires Behaviour(hist, log) && Settled(hist[0]) && k < |hist|
    ensures
      var t := hist[k];
      var live := RecoverDisk(t.w.disk).live;
      && (t.e.committed ==> Generation(live, t.e.rebuilt, t.e.residue) && (t.w.disk.marker ==> live == t.e.rebuilt))
      && (!t.e.committed && !t.e.unmarked ==> Generation(live, t.e.base, t.e.dirty + t.e.lost + Doomed(t)))
      && (!t.e.committed && t.e.unmarked ==>
            forall n :: EitherGeneration(live, t.e, n) && (n in t.w.disk.backup ==> At(live, n) == At(t.e.base, n)))
      && t.e.dirty !! t.e.staged && t.e.residue !! t.e.staged
  {
    EveryRunKeepsInv(hist, log, k);
    RecoveredSide(hist[k]);
  }

  lemma RecoveredSide(t: State)
    requires Core(t.w, t.e)
    ensures
      var live := RecoverDisk(t.w.disk).live;
      && (t.e.committed ==> Generation(live, t.e.rebuilt, t.e.residue) && (t.w.disk.marker ==> live == t.e.rebuilt))
      && (!t.e.committed && !t.e.unmarked ==> Generation(live, t.e.base, t.e.dirty + t.e.lost + Doomed(t)))
      && (!t.e.committed && t.e.unmarked ==>
            forall n :: EitherGeneration(live, t.e, n) && (n in t.w.disk.backup ==> At(live, n) == At(t.e.base, n)))
  {
    var live := RecoverDisk(t.w.disk).live;
    forall n | !t.e.committed && !t.e.unmarked && n !in t.e.dirty + t.e.lost + Doomed(t)
      ensures At(live, n) == At(t.e.base, n)
    {
      assert Held(t.w.disk, t.e, n);
    }
    forall n | !t.e.committed && t.e.unmarked
      ensures EitherGeneration(live, t.e, n) && (n in t.w.disk.backup ==> At(live, n) == At(t.e.base, n))
    {
      assert EitherGeneration(t.w.disk.live, t.e, n);
    }
  }

  /** No run of the behaviour begins under the marker of an unfinished commit. */
  ghost predicate Clean(s: State) {
    && s.e.lost == {} && s.e.residue == {}
    && (s.w.disk.marker ==> s.e.committed)
  }

  lemma CleanStep(s: State, a: Step)
    requires Inv(s) && Clean(s) && Enabled(s, a) && Guarded(s, a)
    ensures Clean(Do(s, a))
  {}

  /**
   When no run begins under a stale marker, nothing is lost and nothing is left over: a
   recovery that finds the marker leaves the whole new generation, one that finds backups
   without it leaves the whole old one or finishes an unmarked commit's rollback.
   */
  lemma {:induction false} CleanRunsLoseNothing(hist: seq<State>, log: seq<Step>, k: nat)
    requires Behaviour(hist, log) && Settled(hist[0]) && AllGuarded(hist, log) && k < |hist|
    ensures
      var t := hist[k];
      var live := RecoverDisk(t.w.disk).live;
      && Clean(t)
      && (t.e.committed ==> live == t.e.rebuilt)
      && (!t.e.committed && !t.e.unmarked ==> Generation(live, t.e.base, t.e.dirty))
      && (t.w.disk.marker ==> t.e.committed)
      && (!t.w.disk.marker && t.w.disk.backup != map[] ==> !t.e.committed)
  {
    if k > 0 {
      CleanRunsLoseNothing(hist, log, k - 1);
      EveryRunKeepsInv(hist, log, k - 1);
      assert NextAt(hist, log, k - 1);
      CleanStep(hist[k - 1], log[k - 1]);
    }
    EveryRunKeepsInv(hist, log, k);
    RecoveryIsOneGeneration(hist, log, k);
    if hist[k].e.committed {
      SameFiles(RecoverDisk(hist[k].w.disk).live, hist[k].e.rebuilt);
    }
  }

  lemma SameFiles(live: map<Name, File>, files: map<Name, File>)
    requires Generation(live, files, {})
    ensures live == files
  {
    forall n ensures n in live <==> n in files {
      assert At(live, n) == At(files, n);
    }
    forall n | n in live ensures live[n] == files[n] {
      assert At(live, n) == At(files, n);
    }
  }

  /**
   The rolled-back directory equals the starting one exactly when no name the rebuild wrote
   without staging it, and none whose backup is gone or about to go, is left different.
   */
  lemma RollbackIsExactIffDirtyUnchanged(s: State)
    requires Inv(s) && !s.e.committed && !s.e.unmarked
    ensures RecoverDisk(s.w.disk).live == s.e.base <==>
            (forall n :: n in s.e.dirty + s.e.lost + Doomed(s) ==> At(s.w.disk.live, n) == At(s.e.base, n))
  {
    var live := RecoverDisk(s.w.disk).live;
    var open := s.e.dirty + s.e.lost + Doomed(s);
    RecoveredSide(s);
    forall n | n in open ensures At(live, n) == At(s.w.disk.live, n) || At(live, n) == At(s.e.base, n) {}
    if forall n :: n in open ==> At(s.w.disk.live, n) == At(s.e.base, n) {
      forall n ensures At(live, n) == At(s.e.base, n) {}
      SameFiles(live, s.e.base);
    }
    if live == s.e.base {
      forall n | n in open ensures At(s.w.disk.live, n) == At(s.e.base, n) {
        assert !s.w.disk.marker && n in s.w.disk.backup ==> n in s.e.staged;
      }
    }
  }

  /**
   The hash gate after both halves of a recovery. An old index comes back with the hashes
   that describe it, and no hash is newer than the index except that of a document an
   uncommitted rebuild was the first to hash; a new index has no such exception. After an
   unmarked commit this lasts as long as the hash snapshot does.
   */
  lemma GateNeverAheadOfIndex(hist: seq<State>, log: seq<Step>, k: nat)
    requires Behaviour(hist, log) && Settled(hist[0]) && k < |hist|
    ensures
      var t := hist[k];
      var docs := RecoverStore(t.w.store).docs;
      && docs.Keys == t.w.store.docs.Keys
      && (!t.e.committed && (!t.e.unmarked || t.w.store.snap.Some?) ==> AgreeOn(docs, t.e.docs0) && LateOnly(docs, t.e))
      && (!t.e.committed && t.e.unmarked ==> StampsAtMost(docs, t.e.gen + 1))
      && (t.e.committed ==> StampsAtMost(docs, t.e.gen))
  {
    EveryRunKeepsInv(hist, log, k);
    RecoveredHashes(hist[k]);
  }

  lemma RecoveredHashes(t: State)
    requires Core(t.w, t.e)
    ensures
      var docs := RecoverStore(t.w.store).docs;
      && docs.Keys == t.w.store.docs.Keys
      && (!t.e.committed && (!t.e.unmarked || t.w.store.snap.Some?) ==> AgreeOn(docs, t.e.docs0) && LateOnly(docs, t.e))
      && (!t.e.committed && t.e.unmarked ==> StampsAtMost(docs, t.e.gen + 1))
      && (t.e.committed ==> StampsAtMost(docs, t.e.gen))
  {
    if t.w.store.snap.Some? {
      OverlayKeeps(t.w.store.docs, t.w.store.snap.value);
    }
  }

  /** The file a name's slots can still give back. */
  function Copies(d: Disk, n: Name): set<File> {
    (if n in d.live then {d.live[n]} else {}) + (if n in d.backup then {d.backup[n]} else {})
  }

  /**
   The only steps that can take the last copy of a backup away are the unlinks of a commit
   past its commit point and the discards of a recovery that finds a marker; and staging
   never writes an occupied slot.
   */
  lemma NoStepLosesTheOldCopy(s: State, a: Step, n: Name)
    requires Inv(s) && Enabled(s, a) && n in s.w.disk.backup
    ensures s.w.disk.backup[n] in Copies(Do(s, a).w.disk, n)
            || (a == Unlink(true) && s.p.rest[0] == n && (s.e.committed || s.e.unmarked))
            || (a == Discard(n, true) && s.w.disk.marker)
    ensures n in s.e.staged ==> n in s.e.base && s.w.disk.backup[n] == s.e.base[n]
    ensures a.MoveAside? ==> s.p.rest[0] != n
  {
    if a.MoveAside? {
      assert Do(s, a).w.disk.backup[n] == s.w.disk.backup[n];
    } else if a.Adopt? || a.Restore? {
      RenameKeepsCopy(s.w.disk, if a.Adopt? then a.n else s.p.rest[0], n);
    } else if a.Unlink? || a.Discard? {
      UnlinkTakesOne(s, a, n);
    } else {
      assert Do(s, a).w.disk.backup == s.w.disk.backup;
    }
  }

  lemma RenameKeepsCopy(d: Disk, m: Name, n: Name)
    requires n in d.backup
    ensures d.backup[n] in Copies(RenameBack(d, m), n) && d.backup[n] in Copies(d, n)
  {}

  lemma UnlinkTakesOne(s: State, a: Step, n: Name)
    requires Inv(s) && Enabled(s, a) && n in s.w.disk.backup && (a.Unlink? || a.Discard?)
    ensures s.w.disk.backup[n] in Copies(Do(s, a).w.disk, n)
            || (a == Unlink(true) && s.p.rest[0] == n && (s.e.committed || s.e.unmarked))
            || (a == Discard(n, true) && s.w.disk.marker)
  {
    var m := if a.Unlink? then s.p.rest[0] else a.n;
    assert m != n ==> n in Do(s, a).w.disk.backup && Do(s, a).w.disk.backup[n] == s.w.disk.backup[n];
  }

  /* ---- recovery can be interrupted and repeated ---- */

  predicate Recovering(p: Phase) {
    p.Down? || p.Adopting? || p.Finishing? || p.Rehash? || p.Ready?
  }

  function RecoverWorld(w: World): World {
    World(RecoverDisk(w.disk), RecoverStore(w.store))
  }

  /** Backups left, plus the marker: what an undisturbed recovery still has to do on disk. */
  function Owed(d: Disk): nat {
    |d.backup| + if d.marker then 1 else 0
  }

  predicate Progress(s: State, a: Step)
    requires Enabled(s, a)
  {
    && (a.Adopt? || a.Discard? || a.ClearMarker?) && a.ok
    && (a.Discard? ==> a.n in s.w.disk.backup)
  }

  lemma BackupShrinks(d: Disk, d': Disk, n: Name)
    requires n in d.backup && d'.backup == d.backup - {n} && d'.marker == d.marker
    ensures Owed(d') < Owed(d)
  {
    assert d'.backup.Keys == d.backup.Keys - {n};
    assert |d'.backup| == |d'.backup.Keys| && |d.backup| == |d.backup.Keys|;
  }

  lemma RenameKeepsUnion(live: map<Name, File>, backup: map<Name, File>, n: Name)
    requires n in backup
    ensures live[n := backup[n]] + (backup - {n}) == live + backup
  {}

  lemma AdoptKeepsTarget(d: Disk, n: Name)
    requires n in d.backup && !d.marker
    ensures RecoverDisk(RenameBack(d, n)) == RecoverDisk(d)
    ensures Owed(RenameBack(d, n)) < Owed(d)
  {
    BackupShrinks(d, RenameBack(d, n), n);
    RenameKeepsUnion(d.live, d.backup, n);
  }

  lemma DiscardKeepsTarget(d: Disk, n: Name)
    requires d.marker
    ensures RecoverDisk(UnlinkBackup(d, n)) == RecoverDisk(d)
    ensures Owed(UnlinkBackup(d, n)) <= Owed(d)
    ensures n in d.backup ==> Owed(UnlinkBackup(d, n)) < Owed(d)
  {
    if n in d.backup {
      BackupShrinks(d, UnlinkBackup(d, n), n);
    } else {
      assert UnlinkBackup(d, n) == d;
    }
  }

  lemma RecoveryStepKeepsDisk(s: State, a: Step)
    requires AtPhase(s) && Enabled(s, a) && Recovering(s.p) && !a.Begin?
    ensures RecoverDisk(Do(s, a).w.disk) == RecoverDisk(s.w.disk)
    ensures Owed(Do(s, a).w.disk) <= Owed(s.w.disk)
    ensures Progress(s, a) ==> Owed(Do(s, a).w.disk) < Owed(s.w.disk)
  {
    var d := s.w.disk;
    if a.Adopt? && a.ok {
      AdoptKeepsTarget(d, a.n);
    } else if a.Discard? && a.ok {
      DiscardKeepsTarget(d, a.n);
    } else if a.ClearMarker? {
      assert d.backup.Keys == {};
    } else {
      assert Do(s, a).w.disk == d;
    }
  }

  lemma RecoveryStepKeepsStore(s: State, a: Step)
    requires Inv(s) && Enabled(s, a) && Recovering(s.p) && !a.Begin?
    ensures Recovering(Do(s, a).p)
    ensures RecoverStore(Do(s, a).w.store) == RecoverStore(s.w.store)
  {
    var st, st' := s.w.store, Do(s, a).w.store;
    if (a.RestoreUpdate? || a.RestoreDrop?) && a.ok {
      var snap := st.snap.value;
      OverlayKeeps(st.docs, snap);
      if a.RestoreUpdate? {
        OverlayKeeps(st'.docs, snap);
        assert Overlay(st'.docs, snap) == Overlay(st.docs, snap);
      } else {
        assert Overlay(st.docs, snap) == st.docs;
      }
    } else {
      assert st' == st;
    }
  }

  /** No recovery step changes what a complete recovery would produce, and none adds work. */
  lemma RecoveryStepKeepsTarget(s: State, a: Step)
    requires Inv(s) && Enabled(s, a) && Recovering(s.p) && !a.Begin?
    ensures Inv(Do(s, a)) && Recovering(Do(s, a).p)
    ensures RecoverWorld(Do(s, a).w) == RecoverWorld(s.w)
    ensures Owed(Do(s, a).w.disk) <= Owed(s.w.disk)
    ensures Progress(s, a) ==> Owed(Do(s, a).w.disk) < Owed(s.w.disk)
  {
    StepKeepsInv(s, a);
    RecoveryStepKeepsDisk(s, a);
    RecoveryStepKeepsStore(s, a);
  }

  lemma NothingOwed(w: World)
    requires Owed(w.disk) == 0 && w.store.snap.None?
    ensures RecoverWorld(w) == w
  {
    assert w.disk.backup == map[];
    assert w.disk.live + w.disk.backup == w.disk.live;
  }

  /**
   Recovery attempts that crash and start over, any number of times, all head for the same
   world; an attempt that ends Ready with nothing owed on disk has reached it.
   */
  lemma {:induction false} RecoveryIsRestartable(hist: seq<State>, log: seq<Step>, k: nat)
    requires Behaviour(hist, log) && k < |hist|
    requires Inv(hist[0]) && hist[0].p.Down?
    requires forall i :: 0 <= i < |log| ==> !log[i].Begin?
    ensures Inv(hist[k]) && Recovering(hist[k].p)
    ensures RecoverWorld(hist[k].w) == RecoverWorld(hist[0].w)
    ensures hist[k].p.Ready? && Owed(hist[k].w.disk) == 0 ==> hist[k].w == RecoverWorld(hist[0].w)
  {
    if k > 0 {
      RecoveryIsRestartable(hist, log, k - 1);
      assert NextAt(hist, log, k - 1);
      RecoveryStepKeepsTarget(hist[k - 1], log[k - 1]);
    }
    if hist[k].p.Ready? && Owed(hist[k].w.disk) == 0 {
      NothingOwed(hist[k].w);
    }
  }
}
