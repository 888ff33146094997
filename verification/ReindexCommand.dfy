/**
 The reindex command: what `up` and `reindex` do first, the staging of a run, its rebuild, and
 its commit or rollback. `Answers` says how every call of the environment turns out, so each
 contract gives the exact verdict; a crash needs no answer, because it leaves the world of
 some prefix of the journal.
 */
module ReindexCommand {
  import opened Prelude
  import opened ReindexProtocol
  import opened ReindexSafety
  import opened ReindexCoverage
  import opened ReindexRun

  /**
   Whether each step of one run works: `stuck` are the names that cannot be moved aside,
   `ingestor` covers setting the ingestor up, `work` is what the rebuild does until it ends.
   */
  datatype Answers = Answers(
    recovery: Recovery,
    snapshots: bool,
    clears: bool,
    discards: bool,
    stuck: set<Name>,
    ingestor: bool,
    work: seq<Work>,
    rebuilt: bool,
    commit: Commit,
    undo: Undo)

  /* ---- when a run succeeds ---- */

  predicate HashesReturn(st: Store, answer: HashRestore) {
    && answer.reachable
    && (st.snap.Some? ==> answer.updates && answer.drops && st.docs.Keys * st.snap.value.Keys != {})
  }

  /** Recovery lets the command go on: no backup that has to be adopted is stuck, and the store comes up. */
  predicate Opens(w: World, answer: Recovery) {
    && (w.disk.marker || w.disk.backup.Keys * answer.stuck == {})
    && answer.opens && HashesReturn(w.store, answer.hashes)
  }

  /** The marker outlives recovery. */
  predicate Stale(d: Disk, answer: Recovery) {
    d.marker && (d.backup.Keys * answer.stuck != {} || !answer.clears)
  }

  /** The backup slots recovery leaves taken. */
  function Occupied(d: Disk, answer: Recovery): map<Name, File> {
    if d.marker then Left(d.backup, answer.stuck) else map[]
  }

  /** The `i`-th name can be moved aside: its slot is free, and stays so if the name occurs twice. */
  predicate Movable(names: seq<Name>, i: nat, taken: set<Name>, stuck: set<Name>, live: set<Name>)
    requires i < |names|
  {
    names[i] !in taken && names[i] !in stuck && (names[i] in live ==> names[i] !in names[..i])
  }

  predicate CanStage(names: seq<Name>, taken: set<Name>, stuck: set<Name>, live: set<Name>) {
    forall i :: 0 <= i < |names| ==> Movable(names, i, taken, stuck, live)
  }

  predicate Stageable(w: World, names: seq<Name>, a: Answers) {
    CanStage(names, Occupied(w.disk, a.recovery).Keys, a.stuck, RecoverDisk(w.disk).live.Keys)
  }

  predicate Prepares(w: World, names: seq<Name>, a: Answers) {
    Opens(w, a.recovery) && a.snapshots && a.clears && Stageable(w, names, a)
  }

  predicate Succeeds(w: World, names: seq<Name>, a: Answers) {
    Prepares(w, names, a) && a.ingestor && a.rebuilt
  }

  /**
   A run succeeds exactly when every call it makes works, no given name is stuck or finds its
   slot taken, and none that has a file occurs twice.
   */
  lemma SucceedsIff(w: World, names: seq<Name>, a: Answers)
    ensures Succeeds(w, names, a) <==>
              && a.recovery.opens && a.recovery.hashes.reachable
              && a.snapshots && a.clears && a.ingestor && a.rebuilt
              && (!w.disk.marker ==> forall n :: n in w.disk.backup ==> n !in a.recovery.stuck)
              && (w.store.snap.Some? ==>
                    && a.recovery.hashes.updates && a.recovery.hashes.drops
                    && exists x :: x in w.store.docs && x in w.store.snap.value)
              && (forall n :: n in names ==> n !in a.stuck)
              && (forall n :: n in names && w.disk.marker && n in w.disk.backup ==> n !in a.recovery.stuck)
              && (forall i, j :: 0 <= i < j < |names| && names[i] == names[j] ==>
                    names[i] !in w.disk.live && (w.disk.marker || names[i] !in w.disk.backup))
  {
    OpensIff(w, a.recovery);
    StageableIff(w, names, a);
  }

  lemma OpensIff(w: World, answer: Recovery)
    ensures Opens(w, answer) <==>
              && answer.opens && answer.hashes.reachable
              && (!w.disk.marker ==> forall n :: n in w.disk.backup ==> n !in answer.stuck)
              && (w.store.snap.Some? ==>
                    && answer.hashes.updates && answer.hashes.drops
                    && exists x :: x in w.store.docs && x in w.store.snap.value)
  {
    var held := w.disk.backup.Keys * answer.stuck;
    assert held == {} <==> forall n :: n in w.disk.backup ==> n !in answer.stuck by {
      forall n | n in w.disk.backup && n in answer.stuck ensures n in held {}
    }
    if w.store.snap.Some? {
      var both := w.store.docs.Keys * w.store.snap.value.Keys;
      assert both != {} <==> exists x :: x in w.store.docs && x in w.store.snap.value by {
        forall x | x in w.store.docs && x in w.store.snap.value ensures x in both {}
      }
    }
  }

  lemma StageableIff(w: World, names: seq<Name>, a: Answers)
    ensures Stageable(w, names, a) <==>
              && (forall n :: n in names ==> n !in a.stuck)
              && (forall n :: n in names && w.disk.marker && n in w.disk.backup ==> n !in a.recovery.stuck)
              && (forall i, j :: 0 <= i < j < |names| && names[i] == names[j] ==>
                    names[i] !in w.disk.live && (w.disk.marker || names[i] !in w.disk.backup))
  {
    var taken, live := Occupied(w.disk, a.recovery).Keys, RecoverDisk(w.disk).live.Keys;
    if Stageable(w, names, a) {
      forall i, j | 0 <= i < j < |names| && names[i] == names[j] ensures names[i] !in live {
        assert Movable(names, j, taken, a.stuck, live);
        assert names[..j][i] == names[j];
      }
      forall n | n in names ensures n !in a.stuck && n !in taken {
        var i :| 0 <= i < |names| && names[i] == n;
        assert Movable(names, i, taken, a.stuck, live);
      }
    }
  }

  /** What a failed run has to undo of the hashes works: the snapshot is put back, or dropped over untouched hashes. */
  predicate HashesUndone(a: Answers) {
    a.snapshots ==> if a.clears then a.undo.hashes == HashRestore(true, true, true) else a.discards
  }

  /* ---- the steps of a run ---- */

  /** openStateForServing: the two recovery halves of `up`; `swept` means nothing was left behind. */
  method OpenStateForServing(corpus: Corpus, answer: Recovery) returns (ok: bool, swept: bool)
    requires corpus.Valid() && corpus.s.p.Down?
    modifies corpus
    ensures corpus.Valid() && corpus.Continues(old(corpus.hist), old(corpus.log)) && corpus.log != old(corpus.log)
    ensures corpus.s.p == if ok then Ready else Down
    ensures SameRun(old(corpus.s.e), corpus.s.e)
    ensures RecoverDisk(corpus.Now().disk).live == RecoverDisk(old(corpus.Now().disk)).live
    ensures RecoverStore(corpus.Now().store) == RecoverStore(old(corpus.Now().store))
    ensures ok <==> Opens(old(corpus.Now()), answer)
    ensures corpus.marker == Stale(old(corpus.Now().disk), answer)
    ensures ok ==> corpus.Now() == World(Disk(RecoverDisk(old(corpus.Now().disk)).live,
                                              Occupied(old(corpus.Now().disk), answer), corpus.marker),
                                         RecoverStore(old(corpus.Now().store)))
    ensures ok ==> (swept <==> !corpus.marker)
    ensures ok && swept ==> corpus.Now() == RecoverWorld(old(corpus.Now()))
  {
    ok, swept := false, false;
    var _, _, discardErr, err := corpus.RecoverInterruptedReindex(answer);
    if err {
      return;
    }
    if !answer.opens {
      corpus.Took(Crash);
      return;
    }
    var r := corpus.RestoreContentHashes(answer.hashes);
    ok := r.Restored? || r.NoContentHashSnapshot?;
    swept := !discardErr;
    NothingLeft(old(corpus.backup), answer.stuck);
  }

  /** A run has begun from the recovered state of `before` and has not committed. */
  ghost predicate BegunFrom(c: Corpus, before: World)
    reads c
  {
    && c.s.e.base == RecoverDisk(before.disk).live && c.s.e.docs0 == RecoverStore(before.store).docs
    && !c.s.e.committed && !c.s.e.unmarked
  }

  /** Step `b` of the journal begins the run over `names` that is on, from these live files. */
  ghost predicate RunSince(c: Corpus, b: nat, names: seq<Name>, live: map<Name, File>, marker: bool)
    requires |c.hist| == |c.log| + 1
    reads c
  {
    && RunOver(c.log, b, |c.log|, names)
    && c.hist[b].w.disk.live == live && c.hist[b].w.disk.marker == marker
  }

  lemma RunGoesOn(c: Corpus, hist: seq<State>, log: seq<Step>, b: nat, names: seq<Name>)
    requires |hist| == |log| + 1 && c.Valid() && c.Continues(hist, log) && RunOver(log, b, |log|, names)
    ensures RunOver(c.log, b, |c.log|, names) && c.hist[b] == hist[b]
  {
    forall i | b < i < |c.log| ensures !c.log[i].Begin? {
      assert i < |log| ==> c.log[i] == log[i];
    }
  }

  /** Taking away all but the stuck ones of those names again. */
  lemma AsideShrinks(moved: set<Name>, live: map<Name, File>, taken: map<Name, File>, stuck: set<Name>)
    requires moved <= live.Keys && moved !! taken.Keys
    ensures taken + Left(live, moved) - (moved - stuck) == taken + Left(live, moved * stuck)
    ensures stuck == {} ==> taken + Left(live, moved * stuck) == taken
  {
    assert stuck == {} ==> moved * stuck == {};
  }

  lemma AsideGrows(moved: set<Name>, live: map<Name, File>, taken: map<Name, File>, n: Name)
    requires n in live
    ensures taken + Left(live, moved + {n}) == (taken + Left(live, moved))[n := live[n]]
  {}

  /** The undo of a staging loop that was refused: hashes, then files; nothing was rebuilt. */
  method AbortStaging(corpus: Corpus, staging: ReindexStaging, undo: Undo)
    requires corpus.Valid() && staging.corpus == corpus && staging.hashBackup
    requires corpus.s.p.Staging? && corpus.s.p.rest != [] && corpus.s.p.moved == staging.backups
    modifies corpus, staging
    ensures corpus.Valid() && corpus.Continues(old(corpus.hist), old(corpus.log)) && corpus.s.p.Down?
    ensures SameRun(old(corpus.s.e), corpus.s.e)
    ensures corpus.live + corpus.backup == old(corpus.live + corpus.backup) && corpus.marker == old(corpus.marker)
    ensures corpus.backup == old(corpus.backup) - (Elems(old(staging.backups)) - undo.stuck)
    ensures RecoverStore(corpus.Now().store) == RecoverStore(old(corpus.Now().store))
    ensures undo.hashes == HashRestore(true, true, true) ==>
              corpus.Now().store == RecoverStore(old(corpus.Now().store))
  {
    corpus.Took(StageFails);
    staging.RestoreContentHashes(undo.hashes);
    ghost var _ := staging.Rollback(undo.stuck);
    corpus.Took(RollbackDone);
  }

  /** Live files, backups and moved names once the first `i` names are dealt with. */
  ghost predicate StagedTo(d: Disk, moved: set<Name>, names: seq<Name>, i: nat, start: Disk)
    requires i <= |names|
  {
    && moved == Elems(names[..i]) * start.live.Keys && moved !! start.backup.Keys
    && d == Disk(start.live - Elems(names[..i]), start.backup + Left(start.live, moved), start.marker)
  }

  lemma StagedOne(d: Disk, moved: set<Name>, names: seq<Name>, i: nat, start: Disk, stuck: set<Name>)
    requires i < |names| && StagedTo(d, moved, names, i, start)
    ensures var n := names[i];
            && (n !in d.backup && n !in stuck <==> Movable(names, i, start.backup.Keys, stuck, start.live.Keys))
            && (n !in d.backup && n in d.live ==>
                  StagedTo(d.(live := d.live - {n}, backup := d.backup[n := d.live[n]]), moved + {n}, names, i + 1,
                           start))
            && (n !in d.backup && n !in d.live ==> StagedTo(d, moved, names, i + 1, start))
  {
    var n := names[i];
    assert names[..i + 1] == names[..i] + [n];
    ElemsAppend(names[..i], n);
    assert n in names[..i] <==> n in Elems(names[..i]);
    if n !in d.backup {
      assert n in start.live ==> n !in moved && n !in names[..i];
      if n in d.live {
        AsideGrows(moved, start.live, start.backup, n);
        assert start.live - Elems(names[..i]) - {n} == start.live - (Elems(names[..i]) + {n});
      } else {
        assert n !in start.live;
        assert start.live - (Elems(names[..i]) + {n}) == start.live - Elems(names[..i]);
      }
    }
  }

  lemma StagedKeepsUnion(d: Disk, moved: set<Name>, names: seq<Name>, i: nat, start: Disk)
    requires i <= |names| && StagedTo(d, moved, names, i, start)
    ensures d.live + d.backup == start.live + start.backup
  {}

  /** One turn of the staging loop. */
  method StageOne(corpus: Corpus, staging: ReindexStaging, names: seq<Name>, i: nat, stuck: set<Name>,
                  ghost start: Disk)
    returns (err: bool)
    requires corpus.Valid() && staging.corpus == corpus && i < |names|
    requires corpus.s.p == Staging(names[i..], staging.backups)
    requires StagedTo(corpus.Now().disk, Elems(staging.backups), names, i, start)
    modifies corpus, staging
    ensures corpus.Valid() && corpus.Continues(old(corpus.hist), old(corpus.log))
    ensures staging.hashBackup == old(staging.hashBackup)
    ensures err <==> !Movable(names, i, start.backup.Keys, stuck, start.live.Keys)
    ensures corpus.s.p == Staging(names[if err then i else i + 1..], staging.backups)
    ensures StagedTo(corpus.Now().disk, Elems(staging.backups), names, if err then i else i + 1, start)
    ensures SameRun(old(corpus.s.e), corpus.s.e) && corpus.Now().store == old(corpus.Now().store)
  {
    var n := names[i];
    assert names[i..][0] == n && names[i..][1..] == names[i + 1..];
    StagedOne(corpus.Now().disk, Elems(staging.backups), names, i, start, stuck);
    ghost var d, moved := corpus.Now().disk, staging.backups;
    err := staging.Backup(n, stuck);
    ElemsAppend(moved, n);
    assert d.live - {n} == d.live || n in d.live;
  }

  /** The staging loop: stop and undo everything at the first file that cannot be moved. */
  method StageIndexFiles(corpus: Corpus, staging: ReindexStaging, names: seq<Name>, stuck: set<Name>, undo: Undo)
    returns (ok: bool)
    requires corpus.Valid() && corpus.s.p == Staging(names, []) && staging.corpus == corpus
    requires staging.backups == [] && staging.hashBackup
    modifies corpus, staging
    ensures corpus.Valid() && corpus.Continues(old(corpus.hist), old(corpus.log))
    ensures ok <==> CanStage(names, old(corpus.backup).Keys, stuck, old(corpus.live).Keys)
    ensures ok ==> corpus.s.p == Rebuilding(staging.backups) && staging.hashBackup
    ensures ok ==> StagedTo(corpus.Now().disk, Elems(staging.backups), names, |names|, old(corpus.Now().disk))
    ensures ok ==> corpus.Now().store == old(corpus.Now().store)
    ensures !ok ==> corpus.s.p.Down? && (undo.stuck == {} ==> corpus.backup == old(corpus.backup))
    ensures !ok && undo.hashes == HashRestore(true, true, true) ==>
              corpus.Now().store == RecoverStore(old(corpus.Now().store))
    ensures SameRun(old(corpus.s.e), corpus.s.e)
    ensures corpus.live + corpus.backup == old(corpus.live + corpus.backup) && corpus.marker == old(corpus.marker)
    ensures RecoverStore(corpus.Now().store) == RecoverStore(old(corpus.Now().store))
  {
    ghost var start := corpus.Now().disk;
    var i := 0;
    assert StagedTo(start, {}, names, 0, start) by {
      assert start.live - {} == start.live && start.backup + Left(start.live, {}) == start.backup;
    }
    while i < |names|
      invariant 0 <= i <= |names| && staging.hashBackup
      invariant corpus.Valid() && corpus.Continues(old(corpus.hist), old(corpus.log))
      invariant corpus.s.p == Staging(names[i..], staging.backups)
      invariant SameRun(old(corpus.s.e), corpus.s.e) && corpus.Now().store == old(corpus.Now().store)
      invariant StagedTo(corpus.Now().disk, Elems(staging.backups), names, i, start)
      invariant forall j :: 0 <= j < i ==> Movable(names, j, start.backup.Keys, stuck, start.live.Keys)
    {
      var err := StageOne(corpus, staging, names, i, stuck, start);
      if err {
        StagedKeepsUnion(corpus.Now().disk, Elems(staging.backups), names, i, start);
        AsideShrinks(Elems(staging.backups), start.live, start.backup, undo.stuck);
        AbortStaging(corpus, staging, undo);
        return false;
      }
      i := i + 1;
    }
    StagedKeepsUnion(corpus.Now().disk, Elems(staging.backups), names, |names|, start);
    corpus.Took(StagingDone);
    ok := true;
  }

  /** snapshotContentHashes past its recovery, the clearing of the hashes, and the staging loop. */
  method SnapshotAndStage(corpus: Corpus, staging: ReindexStaging, names: seq<Name>, a: Answers) returns (ok: bool)
    requires corpus.Valid() && corpus.s.p.Ready? && corpus.snap.None?
    requires staging.corpus == corpus && staging.backups == [] && !staging.hashBackup
    modifies corpus, staging
    ensures !ok && HashesUndone(a) ==> corpus.Now().store == old(corpus.Now().store)
    ensures corpus.Valid() && corpus.Extends(old(corpus.hist), old(corpus.log)) && corpus.log != old(corpus.log)
    ensures ok <==> a.snapshots && a.clears && CanStage(names, old(corpus.backup).Keys, a.stuck, old(corpus.live).Keys)
    ensures ok ==> corpus.s.p == Rebuilding(staging.backups) && staging.hashBackup
    ensures ok ==> StagedTo(corpus.Now().disk, Elems(staging.backups), names, |names|, old(corpus.Now().disk))
    ensures ok ==> corpus.docs == Cleared(old(corpus.docs)) && corpus.snap == Some(old(corpus.docs))
    ensures !ok ==> corpus.s.p.Down? && (a.undo.stuck == {} ==> corpus.backup == old(corpus.backup))
    ensures if a.snapshots then
              && SameRun(BeginEpoch(old(corpus.s)), corpus.s.e)
              && RunSince(corpus, |old(corpus.log)|, names, old(corpus.live), corpus.marker)
            else corpus.s.e == old(corpus.s.e) && corpus.Now() == old(corpus.Now())
    ensures RecoverStore(corpus.Now().store) == RecoverStore(old(corpus.Now().store))
    ensures corpus.live + corpus.backup == old(corpus.live + corpus.backup) && corpus.marker == old(corpus.marker)
  {
    ok := corpus.BackupContentHashes(a.snapshots, names);
    if !ok {
      return;
    }
    ghost var hist, log := corpus.hist, corpus.log;
    staging.hashBackup := true;
    OverlaySelf(corpus.docs);
    ok := ClearAndStage(corpus, staging, names, a);
    RunGoesOn(corpus, hist, log, |old(corpus.log)|, names);
  }

  /** What follows the hash snapshot. */
  method ClearAndStage(corpus: Corpus, staging: ReindexStaging, names: seq<Name>, a: Answers) returns (ok: bool)
    requires corpus.Valid() && corpus.s.p == Snapped(names) && corpus.snap == Some(corpus.docs)
    requires staging.corpus == corpus && staging.backups == [] && staging.hashBackup
    modifies corpus, staging
    ensures !ok && (if a.clears then a.undo.hashes == HashRestore(true, true, true) else a.discards) ==>
              corpus.Now().store == Store(old(corpus.docs), None)
    ensures corpus.Valid() && corpus.Continues(old(corpus.hist), old(corpus.log))
    ensures ok <==> a.clears && CanStage(names, old(corpus.backup).Keys, a.stuck, old(corpus.live).Keys)
    ensures ok ==> corpus.s.p == Rebuilding(staging.backups) && staging.hashBackup
    ensures ok ==> StagedTo(corpus.Now().disk, Elems(staging.backups), names, |names|, old(corpus.Now().disk))
    ensures ok ==> corpus.docs == Cleared(old(corpus.docs)) && corpus.snap == Some(old(corpus.docs))
    ensures !ok ==> corpus.s.p.Down? && (a.undo.stuck == {} ==> corpus.backup == old(corpus.backup))
    ensures SameRun(old(corpus.s.e), corpus.s.e)
    ensures RecoverStore(corpus.Now().store) == RecoverStore(old(corpus.Now().store))
    ensures corpus.live + corpus.backup == old(corpus.live + corpus.backup) && corpus.marker == old(corpus.marker)
  {
    OverlaySelf(corpus.docs);
    var cleared := corpus.ClearDocumentContentHashes(a.clears);
    if cleared {
      ok := StageIndexFiles(corpus, staging, names, a.stuck, a.undo);
    } else {
      OverlaySelf(corpus.docs);
      staging.DiscardContentHashBackup(a.discards);
      corpus.Took(CloseStore);
      ok := false;
    }
  }

  lemma OverlaySelf(docs: Hashes)
    ensures Overlay(docs, docs) == docs
  {}

  /** prepareReindexStore: recover, snapshot the hashes, clear them, move the index files aside. */
  method PrepareReindexStore(corpus: Corpus, names: seq<Name>, a: Answers)
    returns (staging: ReindexStaging, ok: bool, ghost b: nat)
    requires corpus.Valid() && corpus.s.p.Down?
    modifies corpus
    ensures corpus.Valid() && corpus.Extends(old(corpus.hist), old(corpus.log)) && corpus.log != old(corpus.log)
    ensures fresh(staging) && staging.corpus == corpus && |old(corpus.log)| <= b
    ensures ok <==> Prepares(old(corpus.Now()), names, a)
    ensures corpus.marker == Stale(old(corpus.Now().disk), a.recovery)
    ensures corpus.s.e.gen == old(corpus.s.e.gen)
    ensures var before := old(corpus.Now());
            var live, taken := RecoverDisk(before.disk).live, Occupied(before.disk, a.recovery);
            && RecoverStore(corpus.Now().store) == RecoverStore(before.store)
            && (!corpus.marker ==> RecoverDisk(corpus.Now().disk).live == live)
            && (if Opens(before, a.recovery) && a.snapshots
                then BegunFrom(corpus, before) && RunSince(corpus, b, names, live, corpus.marker)
                else RecoverDisk(corpus.Now().disk).live == live)
            && (ok ==>
                  && corpus.s.p == Rebuilding(staging.backups) && staging.hashBackup
                  && Elems(staging.backups) == Elems(names) * live.Keys && Elems(staging.backups) !! taken.Keys
                  && corpus.live == live - Elems(names) && corpus.backup == taken + Left(live, Elems(staging.backups))
                  && corpus.docs == Cleared(RecoverStore(before.store).docs)
                  && corpus.snap == Some(RecoverStore(before.store).docs))
            && (ok ==>
                  && corpus.docs.Keys == RecoverStore(before.store).docs.Keys
                  && forall x :: x in corpus.docs ==> corpus.docs[x].None?)
            && (!ok ==> corpus.s.p.Down?)
            && (!ok && Opens(before, a.recovery) && HashesUndone(a) ==>
                  corpus.Now().store == RecoverStore(before.store))
            && (!ok && Opens(before, a.recovery) && a.undo.stuck == {} ==> corpus.backup == taken)
  {
    staging := new ReindexStaging(corpus);
    b := |corpus.log|;
    var started, _ := OpenStateForServing(corpus, a.recovery);
    if started {
      b := |corpus.log|;
      ok := SnapshotAndStage(corpus, staging, names, a);
    } else {
      ok := false;
    }
  }

  /* ---- how a run ends ---- */

  lemma Regroup(a: seq<Step>, b: seq<Step>, c: seq<Step>)
    ensures (a + b) + c == a + (b + c)
  {}

  /** commitReindex: the index files first, then the hash snapshot, then the store. */
  method CommitReindex(staging: ReindexStaging, answer: Commit) returns (ghost steps: seq<Step>)
    requires staging.corpus.Valid() && staging.corpus.s.p == Rebuilding(staging.backups) && staging.hashBackup
    requires staging.corpus.snap.Some?
    modifies staging, staging.corpus
    ensures staging.corpus.Valid() && staging.corpus.s.p.Down?
    ensures staging.corpus.Continues(old(staging.corpus.hist), old(staging.corpus.log))
    ensures CommitOrder(steps, |old(staging.backups)|)
    ensures old(staging.backups) != [] ==> steps[0] == Mark(answer.marks)
    ensures staging.corpus.log == old(staging.corpus.log) + steps + [DropSnapshot(answer.drops), CloseStore]
    ensures staging.corpus.live == old(staging.corpus.live) && staging.corpus.docs == old(staging.corpus.docs)
    ensures staging.corpus.backup == old(staging.corpus.backup) - (Elems(old(staging.backups)) - answer.stuck)
    ensures staging.corpus.snap == if answer.drops then None else old(staging.corpus.snap)
    ensures staging.corpus.s.e == if old(staging.backups) == [] then CommitEpoch(old(staging.corpus.s))
              else MarkEpoch(old(staging.corpus.s), old(staging.corpus.marker) || answer.marks)
  {
    steps := staging.Commit(answer);
    staging.DiscardContentHashBackup(answer.drops);
    staging.corpus.Took(CloseStore);
  }

  /** The order of a rollback: the hashes while the store is open, then its close, then the files. */
  ghost predicate RollbackOrder(steps: seq<Step>, hashes: seq<Step>, writes: seq<Step>, restores: seq<Step>, n: nat) {
    && steps == [RebuildFails] + hashes + writes + [CloseStore] + restores + [RollbackDone]
    && HashSteps(hashes) && RestoreSteps(restores) && |restores| == n
  }

  /** rollbackReindex: hashes while the store is open, then close, then the index files. */
  method RollbackReindex(staging: ReindexStaging, undo: Undo)
    returns (ghost steps: seq<Step>, ghost hashes: seq<Step>, ghost restores: seq<Step>)
    requires staging.corpus.Valid() && staging.corpus.s.p == Rebuilding(staging.backups) && staging.hashBackup
    modifies staging, staging.corpus
    ensures staging.corpus.Valid() && staging.corpus.s.p.Down?
    ensures staging.corpus.Continues(old(staging.corpus.hist), old(staging.corpus.log))
    ensures staging.corpus.log == old(staging.corpus.log) + steps
    ensures RollbackOrder(steps, hashes, Writes(undo.writes), restores, |old(staging.backups)|)
    ensures SameRun(old(staging.corpus.s.e), staging.corpus.s.e)
    ensures staging.corpus.marker == old(staging.corpus.marker)
    ensures staging.corpus.backup == old(staging.corpus.backup) - (Elems(old(staging.backups)) - undo.stuck)
    ensures RecoverStore(staging.corpus.Now().store) == RecoverStore(old(staging.corpus.Now().store))
    ensures undo.hashes == HashRestore(true, true, true) ==>
              staging.corpus.Now().store == RecoverStore(old(staging.corpus.Now().store))
  {
    var corpus := staging.corpus;
    ghost var start := corpus.log;
    corpus.Took(RebuildFails);
    staging.RestoreContentHashes(undo.hashes);
    hashes := corpus.log[|start| + 1..];
    assert corpus.log == start + ([RebuildFails] + hashes);
    restores := PutFilesBack(staging, undo);
    steps := [RebuildFails] + hashes + Writes(undo.writes) + [CloseStore] + restores + [RollbackDone];
    Regroup(start, [RebuildFails] + hashes, Writes(undo.writes) + [CloseStore] + restores + [RollbackDone]);
    assert steps == ([RebuildFails] + hashes) + (Writes(undo.writes) + [CloseStore] + restores + [RollbackDone]);
  }

  /** The half of a rollback after the hashes. */
  method PutFilesBack(staging: ReindexStaging, undo: Undo) returns (ghost restores: seq<Step>)
    requires staging.corpus.Valid() && staging.corpus.s.p == UndoClose(staging.backups)
    modifies staging, staging.corpus
    ensures staging.corpus.Valid() && staging.corpus.s.p.Down?
    ensures staging.corpus.Continues(old(staging.corpus.hist), old(staging.corpus.log))
    ensures staging.corpus.log == old(staging.corpus.log)
                                + (Writes(undo.writes) + [CloseStore] + restores + [RollbackDone])
    ensures RestoreSteps(restores) && |restores| == |old(staging.backups)|
    ensures SameRun(old(staging.corpus.s.e), staging.corpus.s.e)
    ensures staging.corpus.marker == old(staging.corpus.marker)
    ensures staging.corpus.backup == old(staging.corpus.backup) - (Elems(old(staging.backups)) - undo.stuck)
    ensures staging.corpus.Now().store == old(staging.corpus.Now().store)
  {
    var corpus := staging.corpus;
    ghost var start := corpus.log;
    corpus.CloseStoreAfterFailure(undo.writes);
    restores := staging.Rollback(undo.stuck);
    corpus.Took(RollbackDone);
    assert corpus.log == start + (Writes(undo.writes) + [CloseStore] + restores + [RollbackDone]);
  }

  /** The rebuild and the ending it earns. */
  method RebuildAndFinish(corpus: Corpus, staging: ReindexStaging, generation: nat, a: Answers)
    returns (ok: bool, ghost commit: seq<Step>)
    requires corpus.Valid() && staging.corpus == corpus && generation == corpus.s.e.gen + 1
    requires corpus.s.p == Rebuilding(staging.backups) && staging.hashBackup && corpus.snap.Some?
    requires !corpus.s.e.committed && !corpus.s.e.unmarked
    modifies corpus, staging
    ensures corpus.Valid() && corpus.Continues(old(corpus.hist), old(corpus.log)) && corpus.s.p.Down?
    ensures ok <==> a.ingestor && a.rebuilt
    ensures ok ==> Committed(corpus, |old(corpus.log)|, commit, |old(staging.backups)|, a.commit)
    ensures ok ==> corpus.s.e.rebuilt == corpus.live == FilesAfter(old(corpus.live), a.work)
    ensures ok ==> corpus.docs == HashesAfter(old(corpus.docs), a.work, generation)
    ensures ok ==> corpus.snap == if a.commit.drops then None else old(corpus.snap)
    ensures ok ==> corpus.s.e.gen == if corpus.s.e.committed then generation else old(corpus.s.e.gen)
    ensures ok ==> corpus.s.e.unmarked == !corpus.s.e.committed
    ensures ok ==> (corpus.s.e.committed <==> old(staging.backups) == [] || old(corpus.marker) || a.commit.marks)
    ensures !ok ==> SameRun(old(corpus.s.e), corpus.s.e) && corpus.marker == old(corpus.marker)
    ensures !ok && a.undo.hashes == HashRestore(true, true, true) ==>
              corpus.snap.None? && AgreeOn(corpus.docs, old(corpus.snap).value)
    ensures !ok ==>
              RecoverStore(corpus.Now().store) == RecoverStore(RebuiltStore(old(corpus.Now().store), generation, a))
    ensures corpus.backup == old(corpus.backup)
                             - (Elems(old(staging.backups)) - if ok then a.commit.stuck else a.undo.stuck)
  {
    commit, ok := [], false;
    if a.ingestor {
      ok := corpus.Rebuild(generation, a.work, a.rebuilt);
    }
    if ok {
      ghost var start := corpus.log;
      commit := CommitReindex(staging, a.commit);
      Regroup(start, commit, [DropSnapshot(a.commit.drops), CloseStore]);
      assert corpus.log[|start|..] == commit + [DropSnapshot(a.commit.drops), CloseStore];
    } else {
      OverlayKeeps(corpus.docs, corpus.snap.value);
      ghost var _, _, _ := RollbackReindex(staging, a.undo);
    }
  }

  /** The store when the rebuild ended, if it was started at all. */
  function RebuiltStore(st: Store, generation: nat, a: Answers): Store {
    if a.ingestor then st.(docs := HashesAfter(st.docs, a.work, generation)) else st
  }

  /** The journal, past its first `m` steps, ends with the commit of `n` files, the snapshot and the store. */
  ghost predicate Committed(c: Corpus, m: nat, commit: seq<Step>, n: nat, answer: Commit)
    reads c
  {
    && CommitOrder(commit, n) && (n > 0 ==> commit[0] == Mark(answer.marks))
    && m + |commit| + 2 <= |c.log|
    && c.log[|c.log| - |commit| - 2..] == commit + [DropSnapshot(answer.drops), CloseStore]
  }

  /** What a failed run leaves: the files it found, outside the names only the epoch knows of, and the hashes. */
  ghost predicate RolledBack(c: Corpus, before: World)
    reads c
  {
    && Generation(RecoverDisk(c.Now().disk).live, RecoverDisk(before.disk).live, c.s.e.dirty + c.s.e.lost + Doomed(c.s))
    && AgreeOn(RecoverStore(c.Now().store).docs, RecoverStore(before.store).docs)
  }

  /** Every one of the given names that had a file has it again after a recovery. */
  ghost predicate GivesBack(c: Corpus, before: World, names: seq<Name>)
    reads c
  {
    forall n :: n in names && n in RecoverDisk(before.disk).live ==>
      At(RecoverDisk(c.Now().disk).live, n) == At(RecoverDisk(before.disk).live, n)
  }

  lemma FailedRun(c: Corpus, before: World, m: nat)
    requires c.Valid() && m < |c.hist| && Inv(c.hist[m])
    requires BegunFrom(c, before) || RecoverDisk(c.Now().disk).live == RecoverDisk(before.disk).live
    requires BegunFrom(c, before) || RecoverStore(c.Now().store) == RecoverStore(before.store)
    ensures Inv(c.s) && RolledBack(c, before)
  {
    BehaviourKeepsInv(c.hist, c.log, m, |c.log|);
    if BegunFrom(c, before) {
      RecoveredSide(c.s);
      RecoveredHashes(c.s);
    }
  }

  lemma FailedRunGivesBack(c: Corpus, before: World, names: seq<Name>, m: nat, b: nat)
    requires c.Valid() && m <= b < |c.hist| && Inv(c.hist[m]) && BegunFrom(c, before)
    requires RunSince(c, b, names, RecoverDisk(before.disk).live, false)
    ensures GivesBack(c, before, names)
  {
    BehaviourKeepsInv(c.hist, c.log, m, b);
    forall n | n in names && n in RecoverDisk(before.disk).live
      ensures At(RecoverDisk(c.Now().disk).live, n) == At(RecoverDisk(before.disk).live, n)
    {
      GivenNamesAreRestoredIff(c.hist, c.log, b, |c.log|, names, n);
    }
  }

  /** The world of a run that committed `moved`: the rebuild over emptied slots and cleared hashes. */
  ghost predicate Rebuilt(c: Corpus, before: World, names: seq<Name>, generation: nat, a: Answers)
    reads c
  {
    var w := RecoverWorld(before);
    var moved := Elems(names) * w.disk.live.Keys;
    && c.live == FilesAfter(w.disk.live - Elems(names), a.work) && c.s.e.rebuilt == c.live
    && c.docs == HashesAfter(Cleared(w.store.docs), a.work, generation)
    && c.backup == Occupied(before.disk, a.recovery) + Left(w.disk.live, moved * a.commit.stuck)
    && c.snap == (if a.commit.drops then None else Some(w.store.docs))
    && (c.s.e.committed <==> moved == {} || Stale(before.disk, a.recovery) || a.commit.marks)
    && (!c.s.e.committed ==> c.s.e.unmarked)
    && (c.s.e.committed ==> c.s.e.gen == generation)
  }

  /** A live file is what the rebuild last wrote, or one that was there and was not to be moved aside. */
  ghost predicate FilesAreRebuilt(live: map<Name, File>, before: map<Name, File>, names: seq<Name>, work: seq<Work>) {
    && (forall i :: 0 <= i < |work| && work[i].IndexFile? && NoFile(work[i + 1..], work[i].n) ==>
          At(live, work[i].n) == Some(work[i].f))
    && (forall n :: NoFile(work, n) ==> At(live, n) == if n in names then None else At(before, n))
  }

  /** A document has a hash exactly if the rebuild last gave it one, and then the new generation's. */
  ghost predicate HashesAreRebuilt(docs: Hashes, before: Hashes, work: seq<Work>, generation: nat) {
    && (forall i :: 0 <= i < |work| && work[i].ContentHash? && NoHash(work[i + 1..], work[i].x) ==>
          At(docs, work[i].x) == Some(if work[i].done then Some(generation) else None))
    && (forall x :: NoHash(work, x) ==> At(docs, x) == if x in before then Some(None) else None)
    && (forall x :: x in docs ==> docs[x] == None || (docs[x] == Some(generation) && ContentHash(x, true) in work))
  }

  lemma RebuiltIs(before: World, names: seq<Name>, generation: nat, a: Answers)
    ensures var w := RecoverWorld(before);
            && FilesAreRebuilt(FilesAfter(w.disk.live - Elems(names), a.work), w.disk.live, names, a.work)
            && HashesAreRebuilt(HashesAfter(Cleared(w.store.docs), a.work, generation), before.store.docs, a.work,
                                generation)
  {
    var w := RecoverWorld(before);
    var live, docs := w.disk.live - Elems(names), Cleared(w.store.docs);
    forall n ensures NoFile(a.work, n) ==>
      At(FilesAfter(live, a.work), n) == if n in names then None else At(w.disk.live, n)
    {
      FileAfter(live, a.work, n);
    }
    forall i | 0 <= i < |a.work| && a.work[i].IndexFile? && NoFile(a.work[i + 1..], a.work[i].n)
      ensures At(FilesAfter(live, a.work), a.work[i].n) == Some(a.work[i].f)
    {
      FileAfter(live, a.work, a.work[i].n);
    }
    HashesRebuiltAre(before.store, a.work, generation);
  }

  lemma HashesRebuiltAre(st: Store, work: seq<Work>, generation: nat)
    ensures HashesAreRebuilt(HashesAfter(Cleared(RecoverStore(st).docs), work, generation), st.docs, work, generation)
  {
    var docs := Cleared(RecoverStore(st).docs);
    var r := HashesAfter(docs, work, generation);
    assert forall x :: At(docs, x) == if x in st.docs then Some(None) else None;
    forall x ensures NoHash(work, x) ==> At(r, x) == At(docs, x) {
      HashAfter(docs, work, generation, x);
    }
    forall i | 0 <= i < |work| && work[i].ContentHash? && NoHash(work[i + 1..], work[i].x)
      ensures At(r, work[i].x) == Some(if work[i].done then Some(generation) else None)
    {
      HashAfter(docs, work, generation, work[i].x);
    }
    forall x | x in r ensures r[x] == None || (r[x] == Some(generation) && ContentHash(x, true) in work) {
      HashAfter(docs, work, generation, x);
    }
  }

  /**
   runReindex, past its option and daemon checks: whether it succeeds, exactly, and the world
   it leaves. Success means that every given file was moved aside and the commit ran to its
   end over what the rebuild made of the emptied slots. Failure means that a recovery brings
   back the hashes and the files of before: every given name that had a file, unless a stale
   marker is up, and all others outside the rebuild's unstaged writes. When no rename of the
   rollback fails, no backup is left for that recovery.
   */
  method RunReindex(corpus: Corpus, names: seq<Name>, generation: nat, a: Answers)
    returns (ok: bool, ghost commit: seq<Step>, ghost moved: nat)
    requires corpus.Valid() && corpus.s.p.Down? && generation == corpus.s.e.gen + 1
    modifies corpus
    ensures corpus.Valid() && corpus.Extends(old(corpus.hist), old(corpus.log)) && corpus.s.p.Down?
    ensures ok <==> Succeeds(old(corpus.Now()), names, a)
    ensures ok ==> Committed(corpus, |old(corpus.log)|, commit, moved, a.commit)
    ensures ok ==> Rebuilt(corpus, old(corpus.Now()), names, generation, a)
    ensures ok ==> FilesAreRebuilt(corpus.live, RecoverDisk(old(corpus.Now().disk)).live, names, a.work)
    ensures ok ==> HashesAreRebuilt(corpus.docs, old(corpus.docs), a.work, generation)
    ensures ok ==> (moved == 0 <==> Elems(names) * RecoverDisk(old(corpus.Now().disk)).live.Keys == {})
    ensures !ok ==> corpus.s.e.gen == old(corpus.s.e.gen) && corpus.marker == Stale(old(corpus.Now().disk), a.recovery)
    ensures !ok && Opens(old(corpus.Now()), a.recovery) && a.undo.stuck == {} ==>
              corpus.backup == Occupied(old(corpus.Now().disk), a.recovery)
    ensures !ok && Opens(old(corpus.Now()), a.recovery) && HashesUndone(a) ==>
              corpus.snap.None? && AgreeOn(corpus.docs, RecoverStore(old(corpus.Now().store)).docs)
    ensures Inv(old(corpus.s)) ==> Inv(corpus.s)
    ensures Inv(old(corpus.s)) && !ok ==> RolledBack(corpus, old(corpus.Now()))
    ensures Inv(old(corpus.s)) && !ok && !corpus.marker ==> GivesBack(corpus, old(corpus.Now()), names)
  {
    ghost var before, m := corpus.Now(), |corpus.log|;
    ghost var live, taken := RecoverDisk(before.disk).live, Occupied(before.disk, a.recovery);
    commit, moved := [], 0;
    var staging, prepared;
    ghost var b;
    staging, prepared, b := PrepareReindexStore(corpus, names, a);
    ok := false;
    if prepared {
      moved := |staging.backups|;
      ghost var aside := Elems(staging.backups);
      assert moved > 0 ==> staging.backups[0] in aside;
      ghost var hist, log := corpus.hist, corpus.log;
      ok, commit := RebuildAndFinish(corpus, staging, generation, a);
      RunGoesOn(corpus, hist, log, b, names);
      AsideShrinks(aside, live, taken, if ok then a.commit.stuck else a.undo.stuck);
      RebuiltIs(before, names, generation, a);
    }
    if Inv(old(corpus.s)) {
      BehaviourKeepsInv(corpus.hist, corpus.log, m, |corpus.log|);
      if !ok {
        FailedRun(corpus, before, m);
        if BegunFrom(corpus, before) && !corpus.marker && Opens(before, a.recovery) && a.snapshots {
          FailedRunGivesBack(corpus, before, names, m, b);
        }
      }
    }
  }

  /**
   The methods above, crashed anywhere: after any number of runs on one corpus, the world
   at every point of the journal recovers to one generation, outside the names the epoch
   lists, with a gate that names late documents only; an unmarked commit leaves each file in
   one of its generations.
   */
  lemma EveryCrashPointRecovers(c: Corpus, k: nat)
    requires c.Valid() && Settled(c.hist[0]) && k < |c.hist|
    ensures
      var t := c.hist[k];
      var w := RecoverWorld(t.w);
      && (t.e.committed ==> Generation(w.disk.live, t.e.rebuilt, t.e.residue) && StampsAtMost(w.store.docs, t.e.gen))
      && (!t.e.committed && !t.e.unmarked ==>
            && Generation(w.disk.live, t.e.base, t.e.dirty + t.e.lost + Doomed(t))
            && AgreeOn(w.store.docs, t.e.docs0) && LateOnly(w.store.docs, t.e))
      && (!t.e.committed && t.e.unmarked ==>
            && (forall n :: EitherGeneration(w.disk.live, t.e, n))
            && (t.w.store.snap.Some? ==> AgreeOn(w.store.docs, t.e.docs0)))
  {
    RecoveryIsOneGeneration(c.hist, c.log, k);
    GateNeverAheadOfIndex(c.hist, c.log, k);
  }
}
