/**
 Concrete runs from a settled corpus into each of the failures that ReindexDegraded and
 ReindexWhole give the exact conditions of: every one of them is reachable.
 */
module ReindexTraces {
  import opened Prelude
  import opened ReindexProtocol
  import opened ReindexSafety
  import opened ReindexSteps

  const OLD := File(0, true)
  const NEW := File(1, true)
  const PARTIAL := File(1, false)

  /** An untouched corpus of generation zero. */
  function Corpus(live: map<Name, File>, docs: Hashes): State {
    State(World(Disk(live, map[], false), Store(docs, None)),
          Epoch(0, live, docs, {}, {}, {}, {}, {}, {}, {}, false, false, map[]), Down)
  }

  lemma CorpusIsSettled(live: map<Name, File>, docs: Hashes)
    requires (forall n :: n in live ==> live[n].whole) && StampsAtMost(docs, 0)
    ensures Settled(Corpus(live, docs))
  {}

  /** A process that opens a directory with nothing to recover. */
  const OPEN := [OpenDir, AdoptDone, NoSnapshot]

  lemma Opens(s: State)
    requires s.p.Down? && s.w.disk.backup == map[] && !s.w.disk.marker && s.w.store.snap.None?
    ensures Legal(s, OPEN) && Run(s, OPEN) == s.(p := Ready)
  {
    Three(s, OpenDir, AdoptDone, NoSnapshot);
  }

  /** A run over one index file, up to its rebuild. */
  function StageSteps(n: Name, there: bool): seq<Step> {
    [Begin([n]), ClearHashes(true)] + [if there then MoveAside else SkipMissing, StagingDone]
  }

  /** The rebuild of a run over one index file, begun in `s`. */
  function Rebuilds(s: State, n: Name): State
  {
    var d, st, there := s.w.disk, s.w.store, n in s.w.disk.live;
    var e := BeginEpoch(s);
    State(World(d.(live := d.live - {n}, backup := if there then d.backup[n := d.live[n]] else d.backup),
                Store(Cleared(st.docs), Some(st.docs))),
          if there then e.(staged := {n}) else e,
          Rebuilding(if there then [n] else []))
  }

  lemma Stages(s: State, n: Name)
    requires s.p.Ready? && s.w.store.snap.None? && n !in s.w.disk.backup
    ensures Legal(s, StageSteps(n, n in s.w.disk.live))
    ensures Run(s, StageSteps(n, n in s.w.disk.live)) == Rebuilds(s, n)
  {
    var there := n in s.w.disk.live;
    Begins(s, n);
    MovesOne(s, n);
    Then(s, [Begin([n]), ClearHashes(true)], [if there then MoveAside else SkipMissing, StagingDone]);
  }

  /** A run over `n` that has cleared the hashes. */
  function Begun(s: State, n: Name): State {
    State(World(s.w.disk, Store(Cleared(s.w.store.docs), Some(s.w.store.docs))), BeginEpoch(s), Staging([n], []))
  }

  lemma Begins(s: State, n: Name)
    requires s.p.Ready? && s.w.store.snap.None?
    ensures Legal(s, [Begin([n]), ClearHashes(true)]) && Run(s, [Begin([n]), ClearHashes(true)]) == Begun(s, n)
  {
    Two(s, Begin([n]), ClearHashes(true));
  }

  lemma MovesOne(s: State, n: Name)
    requires s.p.Ready? && n !in s.w.disk.backup
    ensures var steps := [if n in s.w.disk.live then MoveAside else SkipMissing, StagingDone];
            Legal(Begun(s, n), steps) && Run(Begun(s, n), steps) == Rebuilds(s, n)
  {
    var there := n in s.w.disk.live;
    assert [n][1..] == [] && [] + [n] == [n] && {} + {n} == {n};
    assert !there ==> s.w.disk.live - {n} == s.w.disk.live;
    Two(Begun(s, n), if there then MoveAside else SkipMissing, StagingDone);
  }

  /** From a settled corpus to the rebuild of its first run. */
  function FirstRun(n: Name, there: bool): seq<Step> {
    OPEN + StageSteps(n, there)
  }

  lemma ReachesRebuild(live: map<Name, File>, docs: Hashes, n: Name)
    ensures var s, steps := Corpus(live, docs), FirstRun(n, n in live);
            Legal(s, steps) && Run(s, steps) == Rebuilds(s.(p := Ready), n)
  {
    var s := Corpus(live, docs);
    Opens(s);
    Stages(s.(p := Ready), n);
    Then(s, OPEN, StageSteps(n, n in live));
  }

  /* ---- files without a predecessor ---- */

  /** A partial file without a predecessor survives the crash and the recovery of its rebuild. */
  lemma NewFileIsNotRolledBack() returns (s: State, log: seq<Step>)
    ensures Settled(s) && Legal(s, log)
    ensures At(s.w.disk.live, "i") == None
    ensures Run(s, log).p.Down? && !Run(s, log).w.disk.marker
    ensures At(RecoverDisk(Run(s, log).w.disk).live, "i") == Some(PARTIAL)
    ensures Run(s, log) == AfterPartial()
  {
    s := Corpus(map[], map[0 := Some(0)]);
    CorpusIsSettled(map[], map[0 := Some(0)]);
    ReachesRebuild(map[], map[0 := Some(0)], "i");
    var start := FirstRun("i", false);
    Two(Run(s, start), Write("i", PARTIAL), Crash);
    Then(s, start, [Write("i", PARTIAL), Crash]);
    log := start + [Write("i", PARTIAL), Crash];
  }

  function AfterPartial(): State {
    var s := Corpus(map[], map[0 := Some(0)]);
    var docs: Hashes := map[0 := Some(0)];
    State(World(Disk(map["i" := PARTIAL], map[], false), Store(Cleared(docs), Some(docs))),
          BeginEpoch(s).(written := {"i"}, dirty := {"i"}), Down)
  }

  /** The next run moves that partial file aside, as if it were a complete generation. */
  lemma PartialFileIsMovedAside() returns (s: State, log: seq<Step>)
    ensures Settled(s) && Legal(s, log)
    ensures var t := Run(s, log);
            t.p.Rebuilding? && "i" in t.e.staged && t.w.disk.backup == map["i" := PARTIAL] && "i" in t.e.torn
  {
    s, log := NewFileIsNotRolledBack();
    var t := AfterPartial();
    Recovers(t);
    var ready := t.(w := World(t.w.disk, Store(map[0 := Some(0)], None)), p := Ready);
    Then(s, log, RECOVER);
    Stages(ready, "i");
    Then(s, log + RECOVER, StageSteps("i", true));
    log := log + RECOVER + StageSteps("i", true);
  }

  const RECOVER := [OpenDir, AdoptDone] + [RestoreUpdate(true), RestoreDrop(true)]

  lemma Recovers(t: State)
    requires t == AfterPartial()
    ensures Legal(t, RECOVER)
    ensures Run(t, RECOVER) == t.(w := World(t.w.disk, Store(map[0 := Some(0)], None)), p := Ready)
  {
    Two(t, OpenDir, AdoptDone);
    var u := Do(Do(t, OpenDir), AdoptDone);
    assert u == t.(p := Rehash(false));
    var docs: Hashes := map[0 := Some(0)];
    assert Overlay(Cleared(docs), docs) == docs;
    Two(u, RestoreUpdate(true), RestoreDrop(true));
    assert 0 in docs.Keys * docs.Keys;
    Then(t, [OpenDir, AdoptDone], [RestoreUpdate(true), RestoreDrop(true)]);
  }

  /* ---- documents new to the corpus ---- */

  /** A document first hashed by a rebuild that crashes keeps the hash of the generation that never was. */
  lemma NewDocumentKeepsItsHash() returns (s: State, log: seq<Step>)
    ensures Settled(s) && Legal(s, log)
    ensures var t := Run(s, log);
            t.p.Down? && !t.e.committed && !t.e.unmarked && t.e.gen == 0
            && At(RecoverStore(t.w.store).docs, 7) == Some(Some(1))
  {
    s := Corpus(map[], map[]);
    CorpusIsSettled(map[], map[]);
    ReachesRebuild(map[], map[], "i");
    var start := FirstRun("i", false);
    Two(Run(s, start), SetHash(7, true), Crash);
    Then(s, start, [SetHash(7, true), Crash]);
    log := start + [SetHash(7, true), Crash];
  }

  /* ---- a commit without a marker ---- */

  /** A rebuild done over one old file and one old hash. */
  function Done(): State {
    var s := Rebuilds(Corpus(map["i" := OLD], map[0 := Some(0)]).(p := Ready), "i");
    State(World(Disk(map["i" := NEW], map["i" := OLD], false), Store(map[0 := Some(1)], Some(map[0 := Some(0)]))),
          s.e.(written := {"i"}), Rebuilding(["i"]))
  }

  lemma ReachesDone() returns (s: State, log: seq<Step>)
    ensures s == Corpus(map["i" := OLD], map[0 := Some(0)]) && Settled(s) && Legal(s, log) && Run(s, log) == Done()
  {
    var docs: Hashes := map[0 := Some(0)];
    s := Corpus(map["i" := OLD], docs);
    CorpusIsSettled(map["i" := OLD], docs);
    ReachesRebuild(map["i" := OLD], docs, "i");
    var start := FirstRun("i", true);
    var t := Run(s, start);
    assert t.w.disk.live == map[] && t.w.store.docs == map[0 := None];
    Two(t, Write("i", NEW), SetHash(0, true));
    assert {"i"} - {"i"} == {};
    assert Do(Do(t, Write("i", NEW)), SetHash(0, true)) == Done();
    Then(s, start, [Write("i", NEW), SetHash(0, true)]);
    log := start + [Write("i", NEW), SetHash(0, true)];
  }

  /** The unlink of its one backup failed, without a marker. */
  function Unmarked(p: Phase): State {
    Done().(e := Done().e.(unmarked := true, rebuilt := map["i" := NEW]), p := p)
  }

  const FAILED_COMMIT := [Mark(false), Unlink(false), KeepMarker] + [DropSnapshot(true), CloseStore]

  lemma CommitFails()
    ensures Legal(Done(), FAILED_COMMIT)
    ensures Run(Done(), FAILED_COMMIT)
         == Unmarked(Down).(w := World(Done().w.disk, Store(map[0 := Some(1)], None)))
  {
    CommitFailsHalfway();
    var t := Unmarked(Discarding);
    Two(t, DropSnapshot(true), CloseStore);
    Then(Done(), [Mark(false), Unlink(false), KeepMarker], [DropSnapshot(true), CloseStore]);
  }

  lemma CommitFailsHalfway()
    ensures Legal(Done(), [Mark(false), Unlink(false), KeepMarker])
    ensures Run(Done(), [Mark(false), Unlink(false), KeepMarker]) == Unmarked(Discarding)
  {
    assert ["i"][1..] == [];
    assert Do(Done(), Mark(false)) == Unmarked(Unlinking(["i"], false));
    assert Do(Unmarked(Unlinking(["i"], false)), Unlink(false)) == Unmarked(Unlinking([], true));
    Three(Done(), Mark(false), Unlink(false), KeepMarker);
  }

  /**
   One backup, no marker and no crash: the unlink fails, the snapshot is dropped, and the
   next recovery serves the old file under the new hash.
   */
  lemma GateRunsAheadOfTheIndex() returns (s: State, log: seq<Step>)
    ensures Settled(s) && Legal(s, log) && Run(s, log).p.Down?
    ensures var w := RecoverWorld(Run(s, log).w);
            At(w.disk.live, "i") == Some(OLD) && At(w.store.docs, 0) == Some(Some(1)) && Run(s, log).e.gen == 0
  {
    s, log := ReachesDone();
    CommitFails();
    Then(s, log, FAILED_COMMIT);
    log := log + FAILED_COMMIT;
  }

  /** Two old files, both rebuilt. */
  function DoneTwo(): State {
    var live := map["i" := OLD, "j" := OLD];
    State(World(Disk(map["i" := NEW, "j" := NEW], live, false), Store(map[], Some(map[]))),
          BeginEpoch(Corpus(live, map[])).(staged := {"i", "j"}, written := {"i", "j"}), Rebuilding(["i", "j"]))
  }

  function BothOld(): map<Name, File> {
    map["i" := OLD, "j" := OLD]
  }

  /** Two old files and no documents, `rest` of them still to be moved aside. */
  function StagingTwo(live: map<Name, File>, backup: map<Name, File>, staged: set<Name>, p: Phase): State {
    State(World(Disk(live, backup, false), Store(map[], Some(map[]))),
          BeginEpoch(Corpus(BothOld(), map[])).(staged := staged), p)
  }

  lemma BeginsTwo()
    ensures var s := Corpus(BothOld(), map[]);
            && Legal(s, OPEN + [Begin(["i", "j"]), ClearHashes(true)])
            && Run(s, OPEN + [Begin(["i", "j"]), ClearHashes(true)])
               == StagingTwo(BothOld(), map[], {}, Staging(["i", "j"], []))
  {
    var s := Corpus(BothOld(), map[]);
    Opens(s);
    Two(s.(p := Ready), Begin(["i", "j"]), ClearHashes(true));
    assert Cleared(map[]) == map[];
    Then(s, OPEN, [Begin(["i", "j"]), ClearHashes(true)]);
  }

  lemma MovesTwo()
    ensures var t := StagingTwo(BothOld(), map[], {}, Staging(["i", "j"], []));
            var steps := [MoveAside, MoveAside, StagingDone];
            Legal(t, steps) && Run(t, steps) == StagingTwo(map[], BothOld(), {"i", "j"}, Rebuilding(["i", "j"]))
  {
    var t := StagingTwo(BothOld(), map[], {}, Staging(["i", "j"], []));
    var u := StagingTwo(map["j" := OLD], map["i" := OLD], {"i"}, Staging(["j"], ["i"]));
    var v := StagingTwo(map[], BothOld(), {"i", "j"}, Staging([], ["i", "j"]));
    assert ["i", "j"][1..] == ["j"] && [] + ["i"] == ["i"] && BothOld() - {"i"} == map["j" := OLD];
    assert Do(t, MoveAside) == u;
    assert ["j"][1..] == [] && ["i"] + ["j"] == ["i", "j"] && map["j" := OLD] - {"j"} == map[];
    assert map["i" := OLD]["j" := OLD] == BothOld();
    assert {"i"} + {"j"} == {"i", "j"};
    assert Do(u, MoveAside) == v;
    Three(t, MoveAside, MoveAside, StagingDone);
  }

  lemma WritesTwo()
    ensures var t := StagingTwo(map[], BothOld(), {"i", "j"}, Rebuilding(["i", "j"]));
            var steps := [Write("i", NEW), Write("j", NEW)];
            Legal(t, steps) && Run(t, steps) == DoneTwo()
  {
    var t := StagingTwo(map[], BothOld(), {"i", "j"}, Rebuilding(["i", "j"]));
    assert {"i"} - {"i", "j"} == {} && {"j"} - {"i", "j"} == {};
    assert {} + {"i"} + {"j"} == {"i", "j"};
    Two(t, Write("i", NEW), Write("j", NEW));
  }

  const CUT_SHORT := [Mark(false), Unlink(true), Crash]

  lemma CommitIsCutShort()
    ensures Legal(DoneTwo(), CUT_SHORT) && Run(DoneTwo(), CUT_SHORT).p.Down?
    ensures Run(DoneTwo(), CUT_SHORT).w.disk == Disk(map["i" := NEW, "j" := NEW], map["j" := OLD], false)
  {
    Three(DoneTwo(), Mark(false), Unlink(true), Crash);
    assert BothOld() - {"i"} == map["j" := OLD];
  }

  /** Two backups, no marker, and a crash after the first unlink: one new file and one old. */
  lemma UnmarkedCommitMixes() returns (s: State, log: seq<Step>)
    ensures Settled(s) && Legal(s, log) && Run(s, log).p.Down?
    ensures RecoverDisk(Run(s, log).w.disk).live == map["i" := NEW, "j" := OLD]
  {
    s, log := Corpus(BothOld(), map[]), OPEN + [Begin(["i", "j"]), ClearHashes(true)];
    CorpusIsSettled(BothOld(), map[]);
    BeginsTwo();
    MovesTwo();
    Then(s, log, [MoveAside, MoveAside, StagingDone]);
    log := log + [MoveAside, MoveAside, StagingDone];
    WritesTwo();
    Then(s, log, [Write("i", NEW), Write("j", NEW)]);
    log := log + [Write("i", NEW), Write("j", NEW)];
    CommitIsCutShort();
    Then(s, log, CUT_SHORT);
    log := log + CUT_SHORT;
  }

  /* ---- a stale marker ---- */

  /** A marked commit of one file whose marker cannot be removed. */
  function Stale(): State {
    State(World(Disk(map["i" := NEW], map[], true), Store(map[0 := Some(1)], None)),
          Done().e.(gen := 1, committed := true, rebuilt := map["i" := NEW]), Down)
  }

  const MARKED := [Mark(true), Unlink(true), Unmark(false)] + [DropSnapshot(true), CloseStore]

  lemma MarkedCommit()
    ensures Legal(Done(), MARKED) && Run(Done(), MARKED) == Stale()
  {
    MarkedCommitHalfway();
    var t := Stale().(w := World(Stale().w.disk, Done().w.store), p := Discarding);
    Two(t, DropSnapshot(true), CloseStore);
    Then(Done(), [Mark(true), Unlink(true), Unmark(false)], [DropSnapshot(true), CloseStore]);
  }

  lemma MarkedCommitHalfway()
    ensures var steps := [Mark(true), Unlink(true), Unmark(false)];
            && Legal(Done(), steps)
            && Run(Done(), steps) == Stale().(w := World(Stale().w.disk, Done().w.store), p := Discarding)
  {
    var d := Disk(map["i" := NEW], map["i" := OLD], true);
    var t := Stale().(w := World(d, Done().w.store), p := Unlinking(["i"], false));
    assert Do(Done(), Mark(true)) == t;
    assert map["i" := OLD] - {"i"} == map[] && ["i"][1..] == [];
    Three(Done(), Mark(true), Unlink(true), Unmark(false));
  }

  lemma ReachesStale() returns (s: State, log: seq<Step>)
    ensures Settled(s) && Legal(s, log) && Run(s, log) == Stale()
  {
    s, log := ReachesDone();
    MarkedCommit();
    Then(s, log, MARKED);
    log := log + MARKED;
  }

  /** A settled corpus reaches the start of a run with the marker up, no backup and a live file. */
  lemma StaleMarkerIsReachable() returns (s: State, log: seq<Step>)
    ensures Settled(s) && Legal(s, log) && Run(s, log) == Stale().(p := Ready)
  {
    s, log := ReachesStale();
    Three(Stale(), OpenDir, ClearMarker(false), NoSnapshot);
    Then(s, log, [OpenDir, ClearMarker(false), NoSnapshot]);
    log := log + [OpenDir, ClearMarker(false), NoSnapshot];
  }

  /** From there a crash right after staging loses the only copy of the file. */
  lemma StaleMarkerLosesAFile() returns (s: State, log: seq<Step>)
    ensures Settled(s) && Legal(s, log) && Run(s, log).p.Down? && !Run(s, log).e.committed
    ensures At(Run(s, log).e.base, "i") == Some(NEW)
    ensures At(RecoverDisk(Run(s, log).w.disk).live, "i") == None
  {
    s, log := StaleMarkerIsReachable();
    var ready := Stale().(p := Ready);
    Stages(ready, "i");
    Then(s, log, StageSteps("i", true));
    log := log + StageSteps("i", true);
    One(Run(s, log), Crash);
    Then(s, log, [Crash]);
    log := log + [Crash];
  }

  /* ---- a backup left over ---- */

  function WithR(r: File, j: File): map<Name, File> {
    map["r" := r, "j" := j]
  }

  /** The run that commits "r" and cannot unlink its backup. */
  function CommittingR(snap: Option<Hashes>, p: Phase): State {
    State(World(Disk(WithR(NEW, OLD), map["r" := OLD], true), Store(map[], snap)),
          BeginEpoch(Corpus(WithR(OLD, OLD), map[])).(gen := 1, staged := {"r"}, written := {"r"},
                                                      committed := true, rebuilt := WithR(NEW, OLD)), p)
  }

  const COMMIT_R := [Write("r", NEW), Mark(true), Unlink(false)] + [KeepMarker, DropSnapshot(true), CloseStore]

  lemma CommitsR()
    ensures var t := Rebuilds(Corpus(WithR(OLD, OLD), map[]).(p := Ready), "r");
            Legal(t, COMMIT_R) && Run(t, COMMIT_R) == CommittingR(None, Down)
  {
    var t := Rebuilds(Corpus(WithR(OLD, OLD), map[]).(p := Ready), "r");
    CommitsRHalfway();
    var u := CommittingR(Some(map[]), Unlinking([], true));
    Three(u, KeepMarker, DropSnapshot(true), CloseStore);
    Then(t, [Write("r", NEW), Mark(true), Unlink(false)], [KeepMarker, DropSnapshot(true), CloseStore]);
  }

  lemma CommitsRHalfway()
    ensures var t := Rebuilds(Corpus(WithR(OLD, OLD), map[]).(p := Ready), "r");
            var steps := [Write("r", NEW), Mark(true), Unlink(false)];
            Legal(t, steps) && Run(t, steps) == CommittingR(Some(map[]), Unlinking([], true))
  {
    var t := Rebuilds(Corpus(WithR(OLD, OLD), map[]).(p := Ready), "r");
    assert Cleared(map[]) == map[];
    assert WithR(OLD, OLD) - {"r"} == map["j" := OLD] && map["j" := OLD]["r" := NEW] == WithR(NEW, OLD);
    assert {"r"} - {"r"} == {} && ["r"][1..] == [] && {} + {"r"} == {"r"};
    var u := Do(t, Write("r", NEW));
    assert u.w.disk == Disk(WithR(NEW, OLD), map["r" := OLD], false) && u.e.written == {"r"} && u.e.dirty == {};
    assert Do(u, Mark(true)) == CommittingR(Some(map[]), Unlinking(["r"], false));
    Three(t, Write("r", NEW), Mark(true), Unlink(false));
  }

  const DISCARD_FAILS := [OpenDir, Discard("r", false)] + [LeaveMarker, NoSnapshot]

  /** The next process cannot discard that backup either, and is ready for a run all the same. */
  lemma DiscardFails()
    ensures Legal(CommittingR(None, Down), DISCARD_FAILS)
    ensures Run(CommittingR(None, Down), DISCARD_FAILS) == CommittingR(None, Ready)
  {
    var t := CommittingR(None, Down);
    assert map["r" := OLD].Keys == {"r"} && {"r"} - {"r"} == {};
    assert Do(t, OpenDir) == CommittingR(None, Finishing({"r"}, false));
    Two(t, OpenDir, Discard("r", false));
    var u := CommittingR(None, Finishing({}, true));
    Two(u, LeaveMarker, NoSnapshot);
    Then(t, [OpenDir, Discard("r", false)], [LeaveMarker, NoSnapshot]);
  }

  const COMMIT_J := [Write("j", NEW), Mark(true), Unlink(true)] + [Unmark(true), DropSnapshot(true), CloseStore]

  /** A run over "j" that commits and removes the marker, with the backup of "r" still there. */
  lemma CommitsJ()
    ensures var t := Rebuilds(CommittingR(None, Ready), "j");
            Legal(t, COMMIT_J) && Run(t, COMMIT_J).p.Down? && Run(t, COMMIT_J).e.committed
            && Run(t, COMMIT_J).w.disk == Disk(WithR(NEW, NEW), map["r" := OLD], false)
  {
    var t := Rebuilds(CommittingR(None, Ready), "j");
    var steps := [Write("j", NEW), Mark(true), Unlink(true)];
    CommitsJHalfway();
    var u := Run(t, steps);
    Three(u, Unmark(true), DropSnapshot(true), CloseStore);
    Then(t, steps, [Unmark(true), DropSnapshot(true), CloseStore]);
  }

  lemma CommitsJHalfway()
    ensures var t, steps := Rebuilds(CommittingR(None, Ready), "j"), [Write("j", NEW), Mark(true), Unlink(true)];
            && Legal(t, steps)
            && var u := Run(t, steps);
               u.p == Unlinking([], false) && u.e.committed && u.w.disk == Disk(WithR(NEW, NEW), map["r" := OLD], true)
  {
    var t := Rebuilds(CommittingR(None, Ready), "j");
    assert WithR(NEW, OLD) - {"j"} == map["r" := NEW] && map["r" := NEW]["j" := NEW] == WithR(NEW, NEW);
    assert map["r" := OLD]["j" := OLD] - {"j"} == map["r" := OLD] && ["j"][1..] == [];
    Three(t, Write("j", NEW), Mark(true), Unlink(true));
  }

  /** A settled corpus reaches the start of a run with that backup left over. */
  lemma LeftoverIsReachable() returns (s: State, log: seq<Step>)
    ensures Settled(s) && Legal(s, log) && Run(s, log) == CommittingR(None, Ready)
  {
    s, log := Corpus(WithR(OLD, OLD), map[]), FirstRun("r", true);
    CorpusIsSettled(WithR(OLD, OLD), map[]);
    ReachesRebuild(WithR(OLD, OLD), map[], "r");
    CommitsR();
    Then(s, log, COMMIT_R);
    DiscardFails();
    Then(s, log + COMMIT_R, DISCARD_FAILS);
    log := log + COMMIT_R + DISCARD_FAILS;
  }

  /**
   A commit cannot unlink the backup of "r"; a later run over "j" alone commits and removes
   the marker, so the next recovery puts the superseded "r" back beside the new "j".
   */
  lemma LeftoverBackupComesBack() returns (s: State, log: seq<Step>)
    ensures Settled(s) && Legal(s, log) && Run(s, log).p.Down? && Run(s, log).e.committed
    ensures Run(s, log).w.disk.live == WithR(NEW, NEW)
    ensures RecoverDisk(Run(s, log).w.disk).live == WithR(OLD, NEW)
  {
    s, log := LeftoverIsReachable();
    Stages(CommittingR(None, Ready), "j");
    Then(s, log, StageSteps("j", true));
    log := log + StageSteps("j", true);
    CommitsJ();
    Then(s, log, COMMIT_J);
    log := log + COMMIT_J;
  }
}
