/**
 What the reindex command works on, in the source's imperative form: the corpus, whose
 methods rename and unlink index files and update the metadata store, and the staging of one
 run. How each call of the environment answers is a parameter. Every atomic operation is
 journalled in `log`, and each method's contract says that the journal only grows by legal
 protocol steps. So a crash during any of these methods leaves the world of some prefix of
 the journal, which is what the theorems of ReindexSafety speak about.
 */
module ReindexRun {
  import opened Prelude
  import opened ReindexProtocol
  import opened ReindexSafety

  lemma ElemsAppend(q: seq<Name>, n: Name)
    ensures Elems(q + [n]) == Elems(q) + {n}
  {}

  /** The two epochs differ in nothing but what the run has done since it began. */
  ghost predicate SameRun(e: Epoch, e': Epoch) {
    && e'.gen == e.gen && e'.base == e.base && e'.docs0 == e.docs0 && e'.residue == e.residue
    && e'.committed == e.committed && e'.unmarked == e.unmarked && e'.rebuilt == e.rebuilt
  }

  predicate HashSteps(steps: seq<Step>) {
    forall i :: 0 <= i < |steps| ==> steps[i].RestoreUpdate? || steps[i].RestoreDrop? || steps[i].NoSnapshot?
  }

  predicate WriteSteps(steps: seq<Step>) {
    forall i :: 0 <= i < |steps| ==> steps[i].Write?
  }

  predicate RestoreSteps(steps: seq<Step>) {
    forall i :: 0 <= i < |steps| ==> steps[i].Restore?
  }

  predicate UnlinkSteps(steps: seq<Step>) {
    forall i :: 0 <= i < |steps| ==> steps[i].Unlink?
  }

  /** A commit of `n` files up to the hashes: the marker first, then every unlink, then what becomes of it. */
  predicate CommitOrder(steps: seq<Step>, n: nat) {
    if n == 0 then steps == [NothingToCommit]
    else
      && |steps| == n + 2
      && steps[0].Mark? && UnlinkSteps(steps[1..n + 1])
      && steps[n + 1] in {Unmark(true), Unmark(false), KeepMarker}
      && (steps[n + 1] == KeepMarker <==> Unlink(false) in steps[1..n + 1])
  }

  /* ---- how the environment answers ---- */

  /** The store's part of a hash restore: it is reached, its UPDATE and its DROP work. */
  datatype HashRestore = HashRestore(reachable: bool, updates: bool, drops: bool)

  /** A recovery: the backups that can be neither renamed nor unlinked, the marker, the store. */
  datatype Recovery = Recovery(stuck: set<Name>, clears: bool, opens: bool, hashes: HashRestore)

  /** A commit: writing the marker, the backups that cannot be unlinked, removing marker and snapshot. */
  datatype Commit = Commit(marks: bool, stuck: set<Name>, unmarks: bool, drops: bool)

  /** A rollback: what closing the store still writes, and the backups that cannot be renamed. */
  datatype Undo = Undo(hashes: HashRestore, writes: seq<(Name, File)>, stuck: set<Name>)

  /** What a rebuild does, one index file or one document at a time. */
  datatype Work = IndexFile(n: Name, f: File) | ContentHash(x: Doc, done: bool)

  function FilesAfter(live: map<Name, File>, work: seq<Work>): map<Name, File> {
    if work == [] then live
    else
      var last, files := work[|work| - 1], FilesAfter(live, work[..|work| - 1]);
      if last.IndexFile? then files[last.n := last.f] else files
  }

  function HashesAfter(docs: Hashes, work: seq<Work>, generation: nat): Hashes {
    if work == [] then docs
    else
      var last, hashes := work[|work| - 1], HashesAfter(docs, work[..|work| - 1], generation);
      if last.ContentHash? then hashes[last.x := if last.done then Some(generation) else None] else hashes
  }

  predicate NoFile(work: seq<Work>, n: Name) {
    forall i :: 0 <= i < |work| && work[i].IndexFile? ==> work[i].n != n
  }

  predicate NoHash(work: seq<Work>, x: Doc) {
    forall i :: 0 <= i < |work| && work[i].ContentHash? ==> work[i].x != x
  }

  /** A file holds what was last written to it, and the others are as they were. */
  lemma {:induction false} FileAfter(live: map<Name, File>, work: seq<Work>, n: Name)
    ensures NoFile(work, n) ==> At(FilesAfter(live, work), n) == At(live, n)
    ensures forall i :: 0 <= i < |work| && work[i].IndexFile? && work[i].n == n && NoFile(work[i + 1..], n) ==>
              At(FilesAfter(live, work), n) == Some(work[i].f)
  {
    if work != [] {
      var last := |work| - 1;
      var init := work[..last];
      FileAfter(live, init, n);
      forall i | 0 <= i < |work| && work[i].IndexFile? && work[i].n == n && NoFile(work[i + 1..], n)
        ensures At(FilesAfter(live, work), n) == Some(work[i].f)
      {
        if i < last {
          assert work[i + 1..][last - i - 1] == work[last];
          assert init[i + 1..] == work[i + 1..][..last - i - 1];
          assert NoFile(init[i + 1..], n);
        }
      }
    }
  }

  /** A document has the hash it was last given, or none if the last was a clearing. */
  lemma {:induction false} HashAfter(docs: Hashes, work: seq<Work>, generation: nat, x: Doc)
    ensures NoHash(work, x) ==> At(HashesAfter(docs, work, generation), x) == At(docs, x)
    ensures forall i :: 0 <= i < |work| && work[i].ContentHash? && work[i].x == x && NoHash(work[i + 1..], x) ==>
              At(HashesAfter(docs, work, generation), x) == Some(if work[i].done then Some(generation) else None)
    ensures var h := At(HashesAfter(docs, work, generation), x);
            h == At(docs, x) || h == Some(None) || (h == Some(Some(generation)) && ContentHash(x, true) in work)
  {
    if work != [] {
      var last := |work| - 1;
      var init := work[..last];
      HashAfter(docs, init, generation, x);
      forall i | 0 <= i < |work| && work[i].ContentHash? && work[i].x == x && NoHash(work[i + 1..], x)
        ensures At(HashesAfter(docs, work, generation), x) == Some(if work[i].done then Some(generation) else None)
      {
        if i < last {
          assert work[i + 1..][last - i - 1] == work[last];
          assert init[i + 1..] == work[i + 1..][..last - i - 1];
          assert NoHash(init[i + 1..], x);
        }
      }
    }
  }

  function Writes(files: seq<(Name, File)>): (steps: seq<Step>)
    ensures |steps| == |files| && WriteSteps(steps)
  {
    seq(|files|, i requires 0 <= i < |files| => Write(files[i].0, files[i].1))
  }

  /** The backups `stuck` among those there are: all that a pass over the directory leaves. */
  function Left(backup: map<Name, File>, stuck: set<Name>): map<Name, File> {
    map n | n in backup && n in stuck :: backup[n]
  }

  lemma DisjointIff(a: set<Name>, b: set<Name>)
    ensures a !! b <==> a * b == {}
  {
    assert a !! b ==> forall n :: n !in a * b;
    assert a * b == {} ==> forall n :: n in a ==> n !in b || n in a * b;
  }

  lemma NothingLeft(backup: map<Name, File>, stuck: set<Name>)
    ensures Left(backup, stuck) == map[] <==> backup.Keys * stuck == {}
  {
    assert Left(backup, stuck).Keys == backup.Keys * stuck;
  }

  /** One entry of the directory handled: gone, or left with the stuck ones. */
  lemma LeftShrinks(backup: map<Name, File>, kept: map<Name, File>, todo: set<Name>, stuck: set<Name>, n: Name)
    requires kept == Left(backup, todo + stuck) && n in todo
    ensures Left(backup, todo - {n} + stuck) == if n in stuck then kept else kept - {n}
  {}

  lemma OneLess(entries: set<Name>, todo: set<Name>, stuck: set<Name>, n: Name)
    requires n in todo && todo <= entries
    ensures (entries - (todo - {n})) * stuck != {} <==> (entries - todo) * stuck != {} || n in stuck
    ensures entries - (todo - {n}) - stuck == (entries - todo - stuck) + if n in stuck then {} else {n}
  {
    assert (entries - (todo - {n})) * stuck == (entries - todo) * stuck + if n in stuck then {n} else {};
  }

  /** One more of the names gone through: it is taken out unless it is stuck. */
  lemma OneMoreGone(backup: map<Name, File>, names: seq<Name>, i: nat, stuck: set<Name>)
    requires i < |names|
    ensures var done, n, all := Elems(names[..i]), names[i], Elems(names[..i + 1]);
            && (all !! stuck <==> done !! stuck && n !in stuck)
            && backup - (all - stuck) == (if n in stuck then backup - (done - stuck) else backup - (done - stuck) - {n})
  {
    ElemsAppend(names[..i], names[i]);
    assert names[..i] + [names[i]] == names[..i + 1];
  }

  lemma MarkedOrder(present: bool, rest: seq<Step>)
    requires |rest| > 1 && UnlinkSteps(rest[..|rest| - 1])
    requires var last := rest[|rest| - 1];
             last in {Unmark(true), Unmark(false), KeepMarker}
             && (last == KeepMarker <==> Unlink(false) in rest[..|rest| - 1])
    ensures CommitOrder([Mark(present)] + rest, |rest| - 1)
  {
    var steps := [Mark(present)] + rest;
    assert steps[1..|rest|] == rest[..|rest| - 1];
  }

  predicate NoBegin(log: seq<Step>, from: nat) {
    forall i :: from <= i < |log| ==> !log[i].Begin?
  }

  datatype RestoreResult = Restored | NoContentHashSnapshot | EmptyContentHashSnapshot | RestoreFailed

  class Corpus {
    var live: map<Name, File>
    var backup: map<Name, File>
    var marker: bool
    var docs: Hashes
    var snap: Option<Hashes>

    ghost var s: State
    ghost var hist: seq<State>
    ghost var log: seq<Step>

    ghost function Now(): World
      reads this
    {
      World(Disk(live, backup, marker), Store(docs, snap))
    }

    ghost predicate Valid()
      reads this
    {
      Behaviour(hist, log) && hist[|log|] == s && s.w == Now()
    }

    ghost predicate Extends(h: seq<State>, l: seq<Step>)
      reads this
    {
      h <= hist && l <= log
    }

    /** The journal has grown, and by no beginning of a run. */
    ghost predicate Continues(h: seq<State>, l: seq<Step>)
      reads this
    {
      Extends(h, l) && NoBegin(log, |l|)
    }

    constructor (disk: Disk, store: Store, ghost e: Epoch)
      ensures Valid() && s == State(World(disk, store), e, Down) && hist == [s] && log == []
    {
      live, backup, marker := disk.live, disk.backup, disk.marker;
      docs, snap := store.docs, store.snap;
      s := State(World(disk, store), e, Down);
      hist := [State(World(disk, store), e, Down)];
      log := [];
    }

    /** Journals the protocol step the preceding assignments carried out. */
    ghost method Took(a: Step)
      requires Behaviour(hist, log) && hist[|log|] == s
      requires Enabled(s, a) && Do(s, a).w == Now()
      modifies `log, `hist, `s
      ensures Valid() && log == old(log) + [a] && hist == old(hist) + [s] && s == Do(old(s), a)
    {
      ghost var s' := Do(s, a);
      forall k | 0 <= k < |log| + 1
        ensures NextAt(hist + [s'], log + [a], k)
      {
        if k < |log| {
          assert NextAt(hist, log, k);
        }
      }
      log, hist, s := log + [a], hist + [s'], s';
    }

    /** os.Rename of `n.reindex-old` over `n`, by recovery or by rollback; a missing source is no error. */
    method RenameBackupOver(n: Name, works: bool, ghost adopting: bool) returns (ok: bool)
      requires Valid()
      requires if adopting then s.p.Adopting? && n in s.p.todo && n in backup
               else s.p.PutBack? && s.p.rest != [] && s.p.rest[0] == n
      modifies this
      ensures Valid() && Continues(old(hist), old(log)) && s.e == old(s.e)
      ensures ok == works && log == old(log) + [if adopting then Adopt(n, ok) else Restore(ok)]
      ensures s.p == if !adopting then PutBack(old(s.p).rest[1..])
                     else if ok then Adopting(old(s.p).todo - {n}) else Down
      ensures live + backup == old(live) + old(backup) && marker == old(marker)
      ensures backup == if ok then old(backup) - {n} else old(backup)
      ensures docs == old(docs) && snap == old(snap)
    {
      ok := works;
      if ok && n in backup {
        live, backup := live[n := backup[n]], backup - {n};
      }
      assert live + backup == old(live) + old(backup);
      assert n !in old(backup) ==> old(backup) - {n} == old(backup);
      Took(if adopting then Adopt(n, ok) else Restore(ok));
    }

    /** recoverInterruptedReindex: adopt every backup, or finish the commit the marker records. */
    method RecoverInterruptedReindex(recovery: Recovery)
      returns (restored: seq<Name>, discarded: seq<Name>, discardErr: bool, err: bool)
      requires Valid() && s.p.Down?
      modifies this
      ensures Valid() && Continues(old(hist), old(log))
      ensures s.p == if err then Down else Rehash(false)
      ensures docs == old(docs) && snap == old(snap) && SameRun(old(s.e), s.e) && log != old(log)
      ensures RecoverDisk(Now().disk).live == RecoverDisk(old(Now().disk)).live
      ensures err <==> !old(marker) && old(backup).Keys * recovery.stuck != {}
      ensures discardErr <==> old(marker) && (old(backup).Keys * recovery.stuck != {} || !recovery.clears)
      ensures !err ==> live == RecoverDisk(old(Now().disk)).live
      ensures !err ==> backup == if old(marker) then Left(old(backup), recovery.stuck) else map[]
      ensures marker == discardErr
      ensures !err && !old(marker) ==> Elems(restored) == old(backup).Keys && discarded == []
      ensures old(marker) ==> restored == [] && Elems(discarded) == old(backup).Keys - recovery.stuck
    {
      restored, discarded, discardErr, err := [], [], false, false;
      var todo := backup.Keys;
      Took(OpenDir);
      if marker {
        discarded, discardErr := FinishInterruptedReindexCommit(todo, recovery.stuck, recovery.clears);
        NothingLeft(old(backup), recovery.stuck);
        assert !discardErr ==> backup == map[] && live + backup == live;
        return;
      }
      restored, err := AdoptAll(todo, recovery.stuck);
    }

    /** The adopting half: each backup is renamed back, and the first failure is fatal. */
    method AdoptAll(entries: set<Name>, stuck: set<Name>) returns (restored: seq<Name>, err: bool)
      requires Valid() && s.p == Adopting(entries) && !marker && entries == backup.Keys
      modifies this
      ensures Valid() && Continues(old(hist), old(log)) && s.p == if err then Down else Rehash(false)
      ensures docs == old(docs) && snap == old(snap) && s.e == old(s.e) && marker == old(marker)
      ensures err <==> entries * stuck != {}
      ensures !err ==> live == old(live) + old(backup) && backup == map[] && Elems(restored) == entries
      ensures live + backup == old(live) + old(backup)
    {
      restored, err := [], false;
      var todo := entries;
      ghost var merged := live + backup;
      while todo != {}
        invariant Valid() && Continues(old(hist), old(log))
        invariant s.p == Adopting(todo) && todo == backup.Keys && !marker
        invariant live + backup == merged && (entries - todo) !! stuck && todo <= entries
        invariant docs == old(docs) && snap == old(snap) && s.e == old(s.e)
        invariant Elems(restored) + todo == entries
        decreases todo
      {
        var n :| n in todo;
        var renamed := RenameBackupOver(n, n !in stuck, true);
        if !renamed {
          assert n in entries * stuck;
          err := true;
          return;
        }
        ElemsAppend(restored, n);
        restored := restored + [n];
        todo := todo - {n};
      }
      Took(AdoptDone);
      assert live == live + backup;
    }

    /** os.Remove of one superseded backup. */
    method DiscardOne(n: Name, works: bool, ghost todo: set<Name>, ghost failed: bool)
      requires Valid() && s.p == Finishing(todo, failed) && n in todo
      modifies this
      ensures Valid() && Continues(old(hist), old(log)) && SameRun(old(s.e), s.e)
      ensures s.p == Finishing(todo - {n}, failed || !works)
      ensures backup == if works then old(backup) - {n} else old(backup)
      ensures live == old(live) && marker == old(marker) && docs == old(docs) && snap == old(snap)
    {
      if works {
        backup := backup - {n};
      }
      Took(Discard(n, works));
    }

    /** The pass over the superseded backups: what cannot be unlinked stays. */
    method DiscardAll(entries: set<Name>, stuck: set<Name>) returns (discarded: seq<Name>, failures: bool)
      requires Valid() && s.p == Finishing(entries, false) && marker && entries == backup.Keys
      modifies this
      ensures Valid() && Continues(old(hist), old(log)) && s.p == Finishing({}, failures)
      ensures docs == old(docs) && snap == old(snap) && live == old(live) && marker && SameRun(old(s.e), s.e)
      ensures backup == Left(old(backup), stuck) && Elems(discarded) == entries - stuck
      ensures failures <==> entries * stuck != {}
    {
      discarded, failures := [], false;
      var todo := entries;
      while todo != {}
        invariant Valid() && Continues(old(hist), old(log))
        invariant s.p == Finishing(todo, failures) && marker && live == old(live)
        invariant docs == old(docs) && snap == old(snap) && SameRun(old(s.e), s.e)
        invariant todo <= entries && backup == Left(old(backup), todo + stuck)
        invariant (failures <==> (entries - todo) * stuck != {}) && Elems(discarded) == entries - todo - stuck
        decreases todo
      {
        var n :| n in todo;
        LeftShrinks(old(backup), backup, todo, stuck, n);
        OneLess(entries, todo, stuck, n);
        DiscardOne(n, n !in stuck, todo, failures);
        if n in stuck {
          failures := true;
        } else {
          ElemsAppend(discarded, n);
          discarded := discarded + [n];
        }
        todo := todo - {n};
      }
      assert {} + stuck == stuck && entries - {} == entries;
    }

    /** finishInterruptedReindexCommit: unlink what is superseded, then clear the marker, last. */
    method FinishInterruptedReindexCommit(entries: set<Name>, stuck: set<Name>, clears: bool)
      returns (discarded: seq<Name>, discardErr: bool)
      requires Valid() && s.p == Finishing(entries, false) && marker && entries == backup.Keys
      modifies this
      ensures Valid() && Continues(old(hist), old(log)) && s.p == Rehash(false)
      ensures docs == old(docs) && snap == old(snap) && live == old(live) && SameRun(old(s.e), s.e)
      ensures backup == Left(old(backup), stuck) && Elems(discarded) == entries - stuck
      ensures discardErr <==> entries * stuck != {} || !clears
      ensures marker == discardErr
    {
      discarded, discardErr := DiscardAll(entries, stuck);
      if discardErr {
        Took(LeaveMarker);
        return;
      }
      if clears {
        marker := false;
      } else {
        discardErr := true;
      }
      Took(ClearMarker(clears));
    }

    /** SQLiteStore.RestoreContentHashes: one UPDATE over the rows that still exist, then one DROP. */
    method RestoreContentHashes(answer: HashRestore) returns (r: RestoreResult)
      requires Valid() && (s.p == Rehash(false) || (s.p.UndoHash? && !s.p.written))
      modifies this
      ensures Valid() && Continues(old(hist), old(log))
      ensures live == old(live) && backup == old(backup) && marker == old(marker) && s.e == old(s.e)
      ensures HashSteps(log[|old(log)|..])
      ensures old(s.p).UndoHash? ==> s.p == AfterUndo(old(s.p))
      ensures old(s.p).Rehash? ==>
                s.p == if r.Restored? || r.NoContentHashSnapshot? then Ready else Down
      ensures r.NoContentHashSnapshot? <==> answer.reachable && old(snap).None?
      ensures r.RestoreFailed? <==> !answer.reachable || (old(snap).Some? && !(answer.updates && answer.drops))
      ensures r.EmptyContentHashSnapshot? ==> old(docs).Keys * old(snap).value.Keys == {}
      ensures r.Restored? ==> old(docs).Keys * old(snap).value.Keys != {}
      ensures !r.RestoreFailed? ==> Now().store == RecoverStore(old(Now().store))
      ensures r.RestoreFailed? ==> snap == old(snap)
      ensures RecoverStore(Now().store) == RecoverStore(old(Now().store))
    {
      if answer.reachable && snap.None? {
        Took(NoSnapshot);
        return NoContentHashSnapshot;
      }
      if !answer.reachable || !answer.updates {
        Took(RestoreUpdate(false));
        return RestoreFailed;
      }
      r := OverlayAndDrop(answer.drops);
    }

    /** The restore past its failures to get there: the UPDATE works, the DROP may not. */
    method OverlayAndDrop(drops: bool) returns (r: RestoreResult)
      requires Valid() && (s.p == Rehash(false) || (s.p.UndoHash? && !s.p.written)) && snap.Some?
      modifies this
      ensures Valid() && Continues(old(hist), old(log))
      ensures live == old(live) && backup == old(backup) && marker == old(marker) && s.e == old(s.e)
      ensures HashSteps(log[|old(log)|..])
      ensures old(s.p).UndoHash? ==> s.p == AfterUndo(old(s.p))
      ensures old(s.p).Rehash? ==> s.p == if r.Restored? then Ready else Down
      ensures r == if !drops then RestoreFailed
                   else if old(docs).Keys * old(snap).value.Keys == {} then EmptyContentHashSnapshot else Restored
      ensures snap == if drops then None else old(snap)
      ensures docs == Overlay(old(docs), old(snap).value) && Overlay(docs, old(snap).value) == docs
    {
      var matched := docs.Keys * snap.value.Keys;
      OverlayKeeps(docs, snap.value);
      docs := Overlay(docs, snap.value);
      OverlayKeeps(docs, snap.value);
      assert Overlay(docs, snap.value) == docs;
      Took(RestoreUpdate(true));
      if !drops {
        Took(RestoreDrop(false));
        return RestoreFailed;
      }
      assert docs.Keys * snap.value.Keys == matched;
      snap := None;
      Took(RestoreDrop(true));
      r := if matched == {} then EmptyContentHashSnapshot else Restored;
    }

    /** SQLiteStore.BackupContentHashes, which refuses to overwrite a snapshot. */
    method BackupContentHashes(works: bool, ghost names: seq<Name>) returns (ok: bool)
      requires Valid() && s.p.Ready?
      modifies this
      ensures Valid() && Extends(old(hist), old(log))
      ensures s.p == if ok then Snapped(names) else Down
      ensures log == old(log) + [if ok then Begin(names) else Crash] && hist == old(hist) + [s]
      ensures s.e == if ok then BeginEpoch(old(s)) else old(s.e)
      ensures Now().disk == old(Now().disk) && docs == old(docs)
      ensures ok <==> old(snap).None? && works
      ensures snap == if ok then Some(docs) else old(snap)
    {
      if snap.Some? || !works {
        Took(Crash);
        return false;
      }
      snap := Some(docs);
      Took(Begin(names));
      ok := true;
    }

    /** SQLiteStore.ClearDocumentContentHashes. */
    method ClearDocumentContentHashes(works: bool) returns (ok: bool)
      requires Valid() && s.p.Snapped?
      modifies this
      ensures Valid() && Continues(old(hist), old(log)) && s.e == old(s.e)
      ensures ok == works && s.p == if ok then Staging(old(s.p).names, []) else Discarding
      ensures Now().disk == old(Now().disk) && snap == old(snap)
      ensures docs == if ok then Cleared(old(docs)) else old(docs)
      ensures snap == Some(old(docs)) ==> RecoverStore(Now().store) == RecoverStore(old(Now().store))
    {
      ok := works;
      if ok {
        docs := Cleared(docs);
        assert snap == Some(old(docs)) ==> Overlay(docs, old(docs)) == old(docs) == Overlay(old(docs), old(docs));
      }
      Took(ClearHashes(ok));
    }

    /** writeReindexCommitMarker: `present` says whether the marker reached the disk. */
    method WriteReindexCommitMarker(works: bool) returns (present: bool)
      requires Valid() && s.p.Rebuilding? && s.p.moved != []
      modifies this
      ensures Valid() && Continues(old(hist), old(log))
      ensures s.p == Unlinking(old(s.p).moved, false)
      ensures live == old(live) && backup == old(backup) && Now().store == old(Now().store)
      ensures marker == (old(marker) || present) && s.e == MarkEpoch(old(s), marker)
      ensures present == works && log == old(log) + [Mark(present)]
    {
      present := works;
      if present {
        marker := true;
      }
      Took(Mark(present));
    }

    method RemoveReindexCommitMarker(works: bool) returns (cleared: bool)
      requires Valid() && s.p == Unlinking([], false)
      modifies this
      ensures Valid() && Continues(old(hist), old(log)) && s.p == Discarding
      ensures live == old(live) && backup == old(backup) && Now().store == old(Now().store) && s.e == old(s.e)
      ensures cleared == works && marker == (old(marker) && !cleared) && log == old(log) + [Unmark(cleared)]
    {
      cleared := works;
      if cleared {
        marker := false;
      }
      Took(Unmark(cleared));
    }

    /** One write of an index file, partial or complete, by the rebuild or by closing its store. */
    method WriteIndexFile(n: Name, f: File)
      requires Valid() && (s.p.Rebuilding? || s.p.UndoClose?)
      modifies this
      ensures Valid() && Continues(old(hist), old(log)) && log == old(log) + [Write(n, f)]
      ensures s.p == old(s.p) && SameRun(old(s.e), s.e)
      ensures live == old(live)[n := f]
      ensures backup == old(backup) && marker == old(marker) && docs == old(docs) && snap == old(snap)
    {
      live := live[n := f];
      Took(Write(n, f));
    }

    /** One document hashed, or its hash cleared. */
    method SetContentHash(x: Doc, done: bool, generation: nat)
      requires Valid() && s.p.Rebuilding? && generation == s.e.gen + 1
      modifies this
      ensures Valid() && Continues(old(hist), old(log)) && log == old(log) + [SetHash(x, done)]
      ensures s.p == old(s.p) && SameRun(old(s.e), s.e)
      ensures docs == old(docs)[x := if done then Some(generation) else None]
      ensures Now().disk == old(Now().disk) && snap == old(snap)
    {
      docs := docs[x := if done then Some(generation) else None];
      Took(SetHash(x, done));
    }

    /** What Reindex does before it returns: write index files, hash or clear documents. */
    method Rebuild(generation: nat, work: seq<Work>, succeeds: bool) returns (ok: bool)
      requires Valid() && s.p.Rebuilding? && generation == s.e.gen + 1
      modifies this
      ensures Valid() && Continues(old(hist), old(log)) && s.p == old(s.p) && SameRun(old(s.e), s.e)
      ensures live == FilesAfter(old(live), work) && docs == HashesAfter(old(docs), work, generation)
      ensures backup == old(backup) && marker == old(marker) && snap == old(snap) && ok == succeeds
    {
      var i := 0;
      while i < |work|
        invariant 0 <= i <= |work|
        invariant Valid() && Continues(old(hist), old(log)) && s.p == old(s.p) && generation == s.e.gen + 1
        invariant SameRun(old(s.e), s.e)
        invariant live == FilesAfter(old(live), work[..i]) && docs == HashesAfter(old(docs), work[..i], generation)
        invariant backup == old(backup) && marker == old(marker) && snap == old(snap)
      {
        assert work[..i + 1][..i] == work[..i];
        match work[i] {
          case IndexFile(n, f) => WriteIndexFile(n, f);
          case ContentHash(x, done) => SetContentHash(x, done, generation);
        }
        i := i + 1;
      }
      assert work[..|work|] == work;
      ok := succeeds;
    }

    /** Closing the store of a rebuild that failed: a persist-on-close may still write live slots. */
    method CloseStoreAfterFailure(files: seq<(Name, File)>)
      requires Valid() && s.p.UndoClose?
      modifies this
      ensures Valid() && Continues(old(hist), old(log)) && s.p == PutBack(old(s.p).moved) && SameRun(old(s.e), s.e)
      ensures log == old(log) + Writes(files) + [CloseStore]
      ensures backup == old(backup) && marker == old(marker) && docs == old(docs) && snap == old(snap)
    {
      var i := 0;
      while i < |files|
        invariant 0 <= i <= |files|
        invariant Valid() && Continues(old(hist), old(log)) && s.p == old(s.p) && SameRun(old(s.e), s.e)
        invariant log == old(log) + Writes(files[..i])
        invariant backup == old(backup) && marker == old(marker) && docs == old(docs) && snap == old(snap)
      {
        WriteIndexFile(files[i].0, files[i].1);
        assert Writes(files[..i + 1]) == Writes(files[..i]) + [Write(files[i].0, files[i].1)];
        i := i + 1;
      }
      assert files[..|files|] == files;
      Took(CloseStore);
    }
  }

  class ReindexStaging {
    const corpus: Corpus
    var backups: seq<Name>
    var hashBackup: bool

    constructor (c: Corpus)
      ensures corpus == c && backups == [] && !hashBackup
    {
      corpus := c;
      backups, hashBackup := [], false;
    }

    /**
     backup: move one live file aside, refusing an occupied slot; a missing file is no error.
     `stuck` are the names whose slot cannot be inspected or whose file cannot be renamed.
     */
    method Backup(name: Name, stuck: set<Name>) returns (err: bool)
      requires corpus.Valid()
      requires corpus.s.p.Staging? && corpus.s.p.rest != [] && corpus.s.p.rest[0] == name
      requires corpus.s.p.moved == backups
      modifies this, corpus
      ensures corpus.Valid() && corpus.Continues(old(corpus.hist), old(corpus.log)) && hashBackup == old(hashBackup)
      ensures err <==> name in old(corpus.backup) || name in stuck
      ensures err ==> backups == old(backups) && corpus.s == old(corpus.s)
      ensures !err ==> backups == old(backups) + if name in old(corpus.live) then [name] else []
      ensures !err ==> corpus.s.p == Staging(old(corpus.s.p).rest[1..], backups)
      ensures SameRun(old(corpus.s.e), corpus.s.e)
      ensures corpus.backup == if !err && name in old(corpus.live)
                               then old(corpus.backup)[name := old(corpus.live)[name]] else old(corpus.backup)
      ensures corpus.live == if err then old(corpus.live) else old(corpus.live) - {name}
      ensures corpus.docs == old(corpus.docs) && corpus.snap == old(corpus.snap) && corpus.marker == old(corpus.marker)
    {
      if name in corpus.backup || name in stuck {
        return true;
      }
      if name !in corpus.live {
        corpus.Took(SkipMissing);
        return false;
      }
      corpus.backup, corpus.live := corpus.backup[name := corpus.live[name]], corpus.live - {name};
      corpus.Took(MoveAside);
      backups := backups + [name];
      err := false;
    }

    /** restoreContentHashes: roll the snapshot back over the cleared gate, once. */
    method RestoreContentHashes(answer: HashRestore)
      requires corpus.Valid()
      requires hashBackup ==> corpus.s.p.UndoHash? && corpus.s.p.moved == backups && !corpus.s.p.written
      modifies this, corpus
      ensures corpus.Valid() && corpus.Continues(old(corpus.hist), old(corpus.log))
      ensures backups == old(backups) && !hashBackup
      ensures corpus.Now().disk == old(corpus.Now().disk)
      ensures corpus.s.e == old(corpus.s.e) && HashSteps(corpus.log[|old(corpus.log)|..])
      ensures old(hashBackup) ==> corpus.s.p == AfterUndo(old(corpus.s.p))
      ensures RecoverStore(corpus.Now().store) == RecoverStore(old(corpus.Now().store))
      ensures corpus.snap.None? || corpus.snap == old(corpus.snap)
      ensures old(hashBackup) && answer == HashRestore(true, true, true) ==>
                corpus.Now().store == RecoverStore(old(corpus.Now().store)) && corpus.snap.None?
      ensures !old(hashBackup) ==> corpus.s == old(corpus.s)
    {
      if !hashBackup {
        return;
      }
      hashBackup := false;
      var _ := corpus.RestoreContentHashes(answer);
    }

    /** discardContentHashBackup: drop the snapshot, best effort. */
    method DiscardContentHashBackup(works: bool)
      requires corpus.Valid()
      requires hashBackup ==> corpus.s.p == Discarding
      modifies this, corpus
      ensures corpus.Valid() && corpus.Continues(old(corpus.hist), old(corpus.log))
      ensures backups == old(backups) && !hashBackup && corpus.s.e == old(corpus.s.e)
      ensures corpus.Now().disk == old(corpus.Now().disk) && corpus.docs == old(corpus.docs)
      ensures corpus.snap == if old(hashBackup) && works then None else old(corpus.snap)
      ensures old(hashBackup) ==>
                corpus.s.p == Closing && corpus.log == old(corpus.log) + [DropSnapshot(corpus.snap.None?)]
      ensures !old(hashBackup) ==> corpus.s == old(corpus.s)
    {
      if !hashBackup {
        return;
      }
      hashBackup := false;
      if works {
        corpus.snap := None;
      }
      corpus.Took(DropSnapshot(corpus.snap.None?));
    }

    method UnlinkBackups(stuck: set<Name>) returns (removed: bool, ghost unlinks: seq<Step>)
      requires corpus.Valid() && corpus.s.p == Unlinking(backups, false)
      modifies corpus
      ensures corpus.Valid() && corpus.Continues(old(corpus.hist), old(corpus.log))
      ensures corpus.log == old(corpus.log) + unlinks && UnlinkSteps(unlinks) && |unlinks| == |backups|
      ensures removed <==> Unlink(false) !in unlinks
      ensures corpus.s.p == Unlinking([], !removed)
      ensures corpus.live == old(corpus.live) && corpus.Now().store == old(corpus.Now().store)
      ensures corpus.marker == old(corpus.marker) && corpus.s.e == old(corpus.s.e)
      ensures removed <==> Elems(backups) !! stuck
      ensures corpus.backup == old(corpus.backup) - (Elems(backups) - stuck)
    {
      removed, unlinks := true, [];
      var i := 0;
      while i < |backups|
        invariant 0 <= i <= |backups|
        invariant corpus.Valid() && corpus.Continues(old(corpus.hist), old(corpus.log))
        invariant corpus.log == old(corpus.log) + unlinks && UnlinkSteps(unlinks) && |unlinks| == i
        invariant removed <==> Unlink(false) !in unlinks
        invariant corpus.s.p == Unlinking(backups[i..], !removed)
        invariant corpus.live == old(corpus.live) && corpus.Now().store == old(corpus.Now().store)
        invariant corpus.marker == old(corpus.marker) && corpus.s.e == old(corpus.s.e)
        invariant removed <==> Elems(backups[..i]) !! stuck
        invariant corpus.backup == old(corpus.backup) - (Elems(backups[..i]) - stuck)
      {
        assert backups[i..][0] == backups[i] && backups[i..][1..] == backups[i + 1..];
        var unlinked := UnlinkOne(backups[i], backups[i] !in stuck, backups[i..], removed);
        removed := removed && unlinked;
        unlinks := unlinks + [Unlink(unlinked)];
        OneMoreGone(old(corpus.backup), backups, i, stuck);
        i := i + 1;
      }
      assert backups[..|backups|] == backups;
    }

    /** os.Remove of one backup; a missing file is no error. */
    method UnlinkOne(n: Name, works: bool, ghost rest: seq<Name>, ghost removed: bool) returns (unlinked: bool)
      requires corpus.Valid() && rest != [] && rest[0] == n && corpus.s.p == Unlinking(rest, !removed)
      modifies corpus
      ensures corpus.Valid() && corpus.Continues(old(corpus.hist), old(corpus.log))
      ensures unlinked == works && corpus.log == old(corpus.log) + [Unlink(unlinked)]
      ensures corpus.s.p == Unlinking(rest[1..], !(removed && unlinked))
      ensures corpus.live == old(corpus.live) && corpus.Now().store == old(corpus.Now().store)
      ensures corpus.marker == old(corpus.marker) && corpus.s.e == old(corpus.s.e)
      ensures corpus.backup == if unlinked then old(corpus.backup) - {n} else old(corpus.backup)
    {
      unlinked := works;
      if unlinked {
        corpus.backup := corpus.backup - {n};
      }
      corpus.Took(Unlink(unlinked));
    }

    /** commit: the marker, N unlinks, and the marker's removal only when every unlink worked. */
    method Commit(answer: Commit) returns (ghost steps: seq<Step>)
      requires corpus.Valid() && corpus.s.p == Rebuilding(backups)
      modifies this, corpus
      ensures corpus.Valid() && corpus.Continues(old(corpus.hist), old(corpus.log)) && corpus.s.p == Discarding
      ensures corpus.log == old(corpus.log) + steps && CommitOrder(steps, |old(backups)|)
      ensures backups == [] && hashBackup == old(hashBackup)
      ensures corpus.live == old(corpus.live) && corpus.Now().store == old(corpus.Now().store)
      ensures corpus.backup == old(corpus.backup) - (Elems(old(backups)) - answer.stuck)
      ensures old(backups) == [] ==> corpus.Now() == old(corpus.Now()) && corpus.s.e == CommitEpoch(old(corpus.s))
      ensures old(backups) != [] ==>
                && steps[0] == Mark(answer.marks)
                && corpus.s.e == MarkEpoch(old(corpus.s), old(corpus.marker) || answer.marks)
                && (steps[|steps| - 1] == KeepMarker <==> Elems(old(backups)) * answer.stuck != {})
                && corpus.marker == ((old(corpus.marker) || answer.marks)
                                     && (Elems(old(backups)) * answer.stuck != {} || !answer.unmarks))
    {
      if |backups| == 0 {
        corpus.Took(NothingToCommit);
        assert corpus.backup == old(corpus.backup) - (Elems([]) - answer.stuck);
        return [NothingToCommit];
      }
      steps := CommitFiles(answer);
    }

    /** A commit that has something to commit. */
    method CommitFiles(answer: Commit) returns (ghost steps: seq<Step>)
      requires corpus.Valid() && corpus.s.p == Rebuilding(backups) && backups != []
      modifies this, corpus
      ensures corpus.Valid() && corpus.Continues(old(corpus.hist), old(corpus.log)) && corpus.s.p == Discarding
      ensures corpus.log == old(corpus.log) + steps && CommitOrder(steps, |old(backups)|)
      ensures backups == [] && hashBackup == old(hashBackup)
      ensures corpus.live == old(corpus.live) && corpus.Now().store == old(corpus.Now().store)
      ensures corpus.backup == old(corpus.backup) - (Elems(old(backups)) - answer.stuck)
      ensures steps[0] == Mark(answer.marks)
      ensures corpus.s.e == MarkEpoch(old(corpus.s), old(corpus.marker) || answer.marks)
      ensures steps[|steps| - 1] == KeepMarker <==> Elems(old(backups)) * answer.stuck != {}
      ensures corpus.marker == ((old(corpus.marker) || answer.marks)
                                && (Elems(old(backups)) * answer.stuck != {} || !answer.unmarks))
    {
      ghost var start := corpus.log;
      var present := corpus.WriteReindexCommitMarker(answer.marks);
      ghost var rest := DiscardBackups(answer);
      steps := [Mark(present)] + rest;
      assert corpus.log == start + steps;
      MarkedOrder(present, rest);
    }

    /** What follows the marker: the unlinks, and the marker's removal unless one of them failed. */
    method DiscardBackups(answer: Commit) returns (ghost steps: seq<Step>)
      requires corpus.Valid() && corpus.s.p == Unlinking(backups, false)
      modifies this, corpus
      ensures corpus.Valid() && corpus.Continues(old(corpus.hist), old(corpus.log)) && corpus.s.p == Discarding
      ensures corpus.log == old(corpus.log) + steps && |steps| == |old(backups)| + 1
      ensures var n := |old(backups)|;
              && UnlinkSteps(steps[..n])
              && steps[n] in {Unmark(true), Unmark(false), KeepMarker}
              && (steps[n] == KeepMarker <==> Unlink(false) in steps[..n])
              && (steps[n] == KeepMarker <==> Elems(old(backups)) * answer.stuck != {})
              && corpus.marker == (old(corpus.marker) && (steps[n] == KeepMarker || !answer.unmarks))
      ensures backups == [] && hashBackup == old(hashBackup) && corpus.s.e == old(corpus.s.e)
      ensures corpus.live == old(corpus.live) && corpus.Now().store == old(corpus.Now().store)
      ensures corpus.backup == old(corpus.backup) - (Elems(old(backups)) - answer.stuck)
    {
      ghost var start := corpus.log;
      var removed;
      ghost var unlinks;
      removed, unlinks := UnlinkBackups(answer.stuck);
      backups := [];
      ghost var last := KeepMarker;
      if !removed {
        corpus.Took(KeepMarker);
      } else {
        var cleared := corpus.RemoveReindexCommitMarker(answer.unmarks);
        last := Unmark(cleared);
      }
      steps := unlinks + [last];
      DisjointIff(Elems(old(backups)), answer.stuck);
      assert corpus.log == start + steps && steps[..|unlinks|] == unlinks;
    }

    /** rollback: rename every moved file back over whatever the rebuild left. */
    method Rollback(stuck: set<Name>) returns (ghost restores: seq<Step>)
      requires corpus.Valid() && corpus.s.p == PutBack(backups)
      modifies this, corpus
      ensures corpus.Valid() && corpus.Continues(old(corpus.hist), old(corpus.log)) && corpus.s.p == PutBack([])
      ensures corpus.log == old(corpus.log) + restores && RestoreSteps(restores) && |restores| == |old(backups)|
      ensures backups == [] && hashBackup == old(hashBackup) && corpus.marker == old(corpus.marker)
      ensures corpus.s.e == old(corpus.s.e)
      ensures corpus.Now().store == old(corpus.Now().store)
      ensures corpus.live + corpus.backup == old(corpus.live + corpus.backup)
      ensures corpus.backup == old(corpus.backup) - (Elems(old(backups)) - stuck)
    {
      ghost var merged := corpus.live + corpus.backup;
      restores := [];
      var i := 0;
      while i < |backups|
        invariant 0 <= i <= |backups| && backups == old(backups) && hashBackup == old(hashBackup)
        invariant corpus.Valid() && corpus.Continues(old(corpus.hist), old(corpus.log))
        invariant corpus.s.p == PutBack(backups[i..]) && corpus.marker == old(corpus.marker)
        invariant corpus.Now().store == old(corpus.Now().store)
        invariant corpus.live + corpus.backup == merged && corpus.s.e == old(corpus.s.e)
        invariant corpus.log == old(corpus.log) + restores && RestoreSteps(restores) && |restores| == i
        invariant corpus.backup == old(corpus.backup) - (Elems(backups[..i]) - stuck)
      {
        var n := backups[i];
        assert backups[i..][0] == n && backups[i..][1..] == backups[i + 1..];
        var renamed := corpus.RenameBackupOver(n, n !in stuck, false);
        restores := restores + [Restore(renamed)];
        OneMoreGone(old(corpus.backup), backups, i, stuck);
        i := i + 1;
      }
      assert backups[..|backups|] == backups;
      backups := [];
    }
  }
}
