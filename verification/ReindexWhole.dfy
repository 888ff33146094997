/**
 Whether the copy that recovery gives back is a complete one. A rebuild that reports success
 has finished the files it wrote; one that crashes may leave any of them partial. A name
 moved aside then has a complete old copy at every point, unless the file moved aside was
 itself such a leftover: `torn` names those.
 */
module ReindexWhole {
  import opened Prelude
  import opened ReindexProtocol
  import opened ReindexSafety

  /** The rebuild's word: what it wrote is finished when it reports success. */
  ghost predicate Finishes(s: State, a: Step) {
    a.Mark? || a.NothingToCommit? ==> forall n :: n in s.e.written ==> !Unfinished(s.w.disk.live, n)
  }

  ghost predicate RebuildsFinish(hist: seq<State>, log: seq<Step>)
    requires |hist| == |log| + 1
  {
    forall k :: 0 <= k < |log| ==> Finishes(hist[k], log[k])
  }

  /** Where unfinished files can be. */
  ghost predicate WholeInv(s: State) {
    var d, e := s.w.disk, s.e;
    && e.dirty <= e.written
    && (forall n :: Unfinished(e.base, n) ==> n in e.torn)
    && (forall n :: n in e.torn && n !in e.residue ==> Unfinished(e.base, n))
    && (forall n :: n in e.residue && Unfinished(d.backup, n) ==> n in e.torn)
    && (!e.committed ==> forall n :: n !in e.written && n in d.live ==> At(d.live, n) == At(e.base, n))
    && (e.committed || e.unmarked ==> forall n :: Unfinished(d.live, n) ==> n in e.torn)
  }

  lemma BeginKeepsWhole(s: State, a: Step)
    requires Inv(s) && WholeInv(s) && Enabled(s, a) && a.Begin?
    ensures WholeInv(Do(s, a))
  {
    var d, e, e' := s.w.disk, s.e, BeginEpoch(s);
    forall n | Unfinished(d.live, n) ensures n in e'.torn {
      assert !e.committed && n !in e.written ==> At(d.live, n) == At(e.base, n);
      assert n in e.torn + e.written;
    }
    forall n | Unfinished(d.backup, n) ensures n in e'.torn {
      assert n in e.staged ==> Unfinished(e.base, n);
      assert n in e.torn + e.written;
    }
  }

  lemma CommitKeepsWhole(s: State, a: Step)
    requires Inv(s) && WholeInv(s) && Enabled(s, a) && Finishes(s, a) && (a.Mark? || a.NothingToCommit?)
    ensures WholeInv(Do(s, a))
  {
    var d, e := s.w.disk, s.e;
    forall n | Unfinished(d.live, n) ensures n in e.torn {
      assert At(d.live, n) == At(e.base, n);
      assert Unfinished(e.base, n);
    }
  }

  lemma RenameKeepsWhole(s: State, a: Step)
    requires Inv(s) && WholeInv(s) && Enabled(s, a) && (a.Adopt? || a.Restore?)
    ensures WholeInv(Do(s, a))
  {
    var d, e := s.w.disk, s.e;
    var n := if a.Adopt? then a.n else s.p.rest[0];
    assert a.Restore? ==> n in Elems(s.p.rest);
    if n in d.backup {
      assert n in e.staged ==> d.backup[n] == e.base[n] && (Unfinished(d.backup, n) ==> Unfinished(e.base, n));
      assert n in e.staged || e.committed;
    }
  }

  /** Every step keeps unfinished files where they are expected. */
  lemma StepKeepsWhole(s: State, a: Step)
    requires Inv(s) && WholeInv(s) && Enabled(s, a) && Finishes(s, a)
    ensures WholeInv(Do(s, a))
  {
    if a.Begin? {
      BeginKeepsWhole(s, a);
    } else if a.Mark? || a.NothingToCommit? {
      CommitKeepsWhole(s, a);
    } else if a.Adopt? || a.Restore? {
      RenameKeepsWhole(s, a);
    }
  }

  lemma {:induction false} EveryRunKeepsWhole(hist: seq<State>, log: seq<Step>, k: nat)
    requires Behaviour(hist, log) && Settled(hist[0]) && RebuildsFinish(hist, log) && k < |hist|
    ensures Inv(hist[k]) && WholeInv(hist[k])
  {
    EveryRunKeepsInv(hist, log, k);
    if k > 0 {
      EveryRunKeepsWhole(hist, log, k - 1);
      assert NextAt(hist, log, k - 1);
      StepKeepsWhole(hist[k - 1], log[k - 1]);
    }
  }

  /**
   At every point of every run, until the commit point, the starting copy of each name moved
   aside is in its live or its backup slot, unless a stale marker made recovery discard it;
   and that copy is a complete one exactly when it is not a leftover of an earlier rebuild.
   */
  lemma StagedNamesKeepAWholeCopy(hist: seq<State>, log: seq<Step>, k: nat, n: Name)
    requires Behaviour(hist, log) && Settled(hist[0]) && RebuildsFinish(hist, log) && k < |hist|
    requires var e := hist[k].e; n in e.staged && n !in e.lost && !e.committed && !e.unmarked
    ensures var e := hist[k].e;
            && n in e.base && e.base[n] in Copies(hist[k].w.disk, n)
            && (e.base[n].whole <==> n !in e.torn)
  {
    EveryRunKeepsWhole(hist, log, k);
    assert Held(hist[k].w.disk, hist[k].e, n);
    assert Unfinished(hist[k].e.base, n) <==> n in hist[k].e.torn;
  }

  /** After a commit point, marked or not, every live file is complete, leftovers aside. */
  lemma CommittedFilesAreWhole(hist: seq<State>, log: seq<Step>, k: nat, n: Name)
    requires Behaviour(hist, log) && Settled(hist[0]) && RebuildsFinish(hist, log) && k < |hist|
    requires (hist[k].e.committed || hist[k].e.unmarked) && n in hist[k].w.disk.live
    ensures hist[k].w.disk.live[n].whole || n in hist[k].e.torn
  {
    EveryRunKeepsWhole(hist, log, k);
  }

  /**
   When no run begins under a stale marker, a run finds a new leftover exactly where an
   uncommitted rebuild left a partial file without having moved a predecessor aside.
   */
  lemma LeftoversAreUnstagedWrites(s: State, a: Step, n: Name)
    requires Inv(s) && WholeInv(s) && Clean(s) && Enabled(s, a) && a.Begin? && Guarded(s, a)
    requires n !in s.e.torn
    ensures n in Do(s, a).e.torn
            <==> n in s.e.dirty && !s.e.committed && !s.e.unmarked && Unfinished(s.w.disk.live, n)
  {
    var d, e := s.w.disk, s.e;
    assert d.backup == map[];
    if n in Do(s, a).e.torn {
      assert Unfinished(d.live, n);
      assert n in e.dirty || Held(d, e, n);
    }
  }

  /** Step `j` writes a partial file under `n`, which its run has not moved aside. */
  ghost predicate PartialWrite(hist: seq<State>, log: seq<Step>, j: nat, n: Name)
    requires j < |log| && |hist| == |log| + 1
  {
    log[j].Write? && log[j].n == n && !log[j].f.whole && n !in hist[j].e.staged
  }

  ghost predicate PartialWriteBefore(hist: seq<State>, log: seq<Step>, k: nat, n: Name)
    requires k <= |log| && |hist| == |log| + 1
  {
    exists j :: 0 <= j < k && PartialWrite(hist, log, j, n)
  }

  /** Where a file that no commit accounts for is unfinished, some earlier step left it so. */
  ghost predicate Accounted(hist: seq<State>, log: seq<Step>, k: nat)
    requires k <= |log| && |hist| == |log| + 1
  {
    var e, live := hist[k].e, hist[k].w.disk.live;
    && (forall n :: n in e.torn ==> PartialWriteBefore(hist, log, k, n))
    && (!e.committed && !e.unmarked ==>
          forall n :: n in e.dirty && Unfinished(live, n) ==> PartialWriteBefore(hist, log, k, n))
  }

  lemma StepIsAccounted(hist: seq<State>, log: seq<Step>, k: nat)
    requires k < |log| && |hist| == |log| + 1 && NextAt(hist, log, k) && Guarded(hist[k], log[k])
    requires Inv(hist[k]) && WholeInv(hist[k]) && Clean(hist[k]) && Accounted(hist, log, k)
    ensures Accounted(hist, log, k + 1)
  {
    var s, a, s' := hist[k], log[k], hist[k + 1];
    forall n | PartialWriteBefore(hist, log, k, n) ensures PartialWriteBefore(hist, log, k + 1, n) {}
    if a.Write? {
      assert !a.f.whole && a.n !in s.e.staged ==> PartialWrite(hist, log, k, a.n);
      assert !a.f.whole && a.n !in s.e.staged ==> PartialWriteBefore(hist, log, k + 1, a.n);
    } else if a.Begin? {
      forall n | n in s'.e.torn ensures PartialWriteBefore(hist, log, k + 1, n) {
        if n !in s.e.torn {
          LeftoversAreUnstagedWrites(s, a, n);
        }
      }
    } else {
      UnstagedStayUnfinished(s, a);
    }
  }

  lemma UnstagedStayUnfinished(s: State, a: Step)
    requires Inv(s) && Clean(s) && Enabled(s, a) && !a.Write? && !a.Begin?
    ensures Do(s, a).e.torn == s.e.torn && Do(s, a).e.dirty == s.e.dirty
    ensures !Do(s, a).e.committed && !Do(s, a).e.unmarked ==>
              forall n :: n in s.e.dirty && Unfinished(Do(s, a).w.disk.live, n) ==> Unfinished(s.w.disk.live, n)
  {}

  lemma {:induction false} EveryRunIsAccounted(hist: seq<State>, log: seq<Step>, k: nat)
    requires Behaviour(hist, log) && Settled(hist[0]) && RebuildsFinish(hist, log) && AllGuarded(hist, log)
    requires k < |hist|
    ensures Inv(hist[k]) && WholeInv(hist[k]) && Clean(hist[k]) && Accounted(hist, log, k)
  {
    EveryRunKeepsWhole(hist, log, k);
    CleanRunsLoseNothing(hist, log, k);
    if k > 0 {
      EveryRunIsAccounted(hist, log, k - 1);
      assert NextAt(hist, log, k - 1);
      StepIsAccounted(hist, log, k - 1);
    }
  }

  lemma RecoveredIsAccounted(hist: seq<State>, log: seq<Step>, k: nat, n: Name)
    requires Behaviour(hist, log) && Settled(hist[0]) && RebuildsFinish(hist, log) && AllGuarded(hist, log)
    requires k < |hist| && Unfinished(RecoverDisk(hist[k].w.disk).live, n)
    ensures PartialWriteBefore(hist, log, k, n)
  {
    EveryRunIsAccounted(hist, log, k);
    var t := hist[k];
    var d := t.w.disk;
    if !t.e.committed && !t.e.unmarked && n !in t.e.dirty {
      RecoveredSide(t);
      assert At(RecoverDisk(d).live, n) == At(t.e.base, n);
      assert Unfinished(t.e.base, n);
    } else if n in d.backup && !d.marker {
      assert n in t.e.staged && d.backup[n] == t.e.base[n];
      assert Unfinished(t.e.base, n);
    } else {
      assert Unfinished(d.live, n);
    }
  }

  /**
   The promise that a file given back is never partial, over whole behaviours: when no run
   begins under a stale marker and rebuilds finish what they report as done, a recovery at
   every point leaves complete files only, exactly when no rebuild writes a partial file
   under a name that it has not moved aside.
   */
  lemma RecoveredFilesAreWholeIff(hist: seq<State>, log: seq<Step>)
    requires Behaviour(hist, log) && Settled(hist[0]) && RebuildsFinish(hist, log) && AllGuarded(hist, log)
    ensures (forall k, n :: 0 <= k < |hist| ==> !Unfinished(RecoverDisk(hist[k].w.disk).live, n))
            <==> (forall j, n :: 0 <= j < |log| ==> !PartialWrite(hist, log, j, n))
  {
    forall k, n | 0 <= k < |hist| && Unfinished(RecoverDisk(hist[k].w.disk).live, n)
      ensures exists j :: 0 <= j < |log| && PartialWrite(hist, log, j, n)
    {
      RecoveredIsAccounted(hist, log, k, n);
    }
    forall j, n | 0 <= j < |log| && PartialWrite(hist, log, j, n)
      ensures Unfinished(RecoverDisk(hist[j + 1].w.disk).live, n)
    {
      EveryRunIsAccounted(hist, log, j);
      assert NextAt(hist, log, j);
      assert hist[j].w.disk.backup.Keys <= hist[j].e.staged;
    }
  }

  /**
   Then each name moved aside also has a complete copy at every point until the commit point,
   which is what lets recovery adopt a backup without looking at it.
   */
  lemma StagedCopiesAreWhole(hist: seq<State>, log: seq<Step>, k: nat, n: Name)
    requires Behaviour(hist, log) && Settled(hist[0]) && RebuildsFinish(hist, log) && AllGuarded(hist, log)
    requires k < |hist| && forall j, m :: 0 <= j < k ==> !PartialWrite(hist, log, j, m)
    ensures hist[k].e.torn == {}
    ensures var t := hist[k]; n in t.e.staged && !t.e.committed && !t.e.unmarked ==>
              n in t.e.base && t.e.base[n].whole && t.e.base[n] in Copies(t.w.disk, n)
  {
    EveryRunIsAccounted(hist, log, k);
    var t := hist[k];
    if n in t.e.staged && !t.e.committed && !t.e.unmarked {
      StagedNamesKeepAWholeCopy(hist, log, k, n);
    }
  }
}
