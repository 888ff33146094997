/**
 Which files a failed run gives back. Every name a run begins with that has a file is moved
 aside before the rebuild may write, so none of them is ever among the unstaged writes that
 a rollback cannot undo.
 */
module ReindexCoverage {
  import opened Prelude
  import opened ReindexProtocol
  import opened ReindexSafety

  /** The names of the run that had a file when it began. */
  function Due(e: Epoch, names: seq<Name>): set<Name> {
    Elems(names) * e.base.Keys
  }

  /** What is left to move aside before the rebuild, and that no write has got ahead of it. */
  ghost predicate Covers(t: State, names: seq<Name>) {
    var due := Due(t.e, names);
    && t.e.dirty !! due
    && match t.p
       case Snapped(todo) => todo == names
       case Staging(rest, _) => due <= t.e.staged + Elems(rest)
       case Rebuilding(_) => due <= t.e.staged
       case UndoHash(_, built, _) => built ==> due <= t.e.staged
       case UndoClose(_) => due <= t.e.staged
       case _ => true
  }

  lemma SkippedHasNoFile(s: State, names: seq<Name>)
    requires Inv(s) && Enabled(s, SkipMissing) && Covers(s, names)
    ensures Covers(Do(s, SkipMissing), names)
  {
    var n := s.p.rest[0];
    assert Held(s.w.disk, s.e, n);
    assert At(s.e.base, n) == None;
    RestAfterFirst(s.p.rest);
  }

  lemma RestAfterFirst(q: seq<Name>)
    requires q != []
    ensures Elems(q) == Elems(q[1..]) + {q[0]}
  {
    assert q == [q[0]] + q[1..];
  }

  lemma StepKeepsCover(s: State, a: Step, names: seq<Name>)
    requires Inv(s) && Enabled(s, a) && !a.Begin? && Covers(s, names)
    ensures Covers(Do(s, a), names) && Do(s, a).e.base == s.e.base
  {
    if a.SkipMissing? {
      SkippedHasNoFile(s, names);
    } else if a.MoveAside? {
      RestAfterFirst(s.p.rest);
    }
  }

  /** Step `b` of the log begins a run over `names`, and up to point `k` no other run begins. */
  ghost predicate RunOver(log: seq<Step>, b: nat, k: nat, names: seq<Name>) {
    b < k <= |log| && log[b] == Begin(names) && forall i :: b < i < k ==> !log[i].Begin?
  }

  /**
   Whatever fails and wherever it crashes, a run that began with `names` never writes one of
   them that had a file without having moved it aside.
   */
  lemma {:induction false} EveryRunCovers(hist: seq<State>, log: seq<Step>, b: nat, k: nat, names: seq<Name>)
    requires Behaviour(hist, log) && RunOver(log, b, k, names) && Inv(hist[b])
    ensures Inv(hist[k]) && Covers(hist[k], names) && hist[k].e.base == hist[b].w.disk.live
    ensures !hist[b].w.disk.marker ==> Clean(hist[k])
  {
    BehaviourKeepsInv(hist, log, b, k - 1);
    BehaviourKeepsInv(hist, log, b, k);
    assert NextAt(hist, log, k - 1);
    if k > b + 1 {
      EveryRunCovers(hist, log, b, k - 1, names);
      StepKeepsCover(hist[k - 1], log[k - 1], names);
      if !hist[b].w.disk.marker {
        CleanStep(hist[k - 1], log[k - 1]);
      }
    }
  }

  /**
   Until its commit point a run can be undone for every name it was given: a recovery at any
   point gives back the file it found there, unless a stale marker took its backup and the
   rebuild left something else in its place. A run begun without a stale marker has no such name.
   */
  lemma GivenNamesAreRestoredIff(hist: seq<State>, log: seq<Step>, b: nat, k: nat, names: seq<Name>, n: Name)
    requires Behaviour(hist, log) && RunOver(log, b, k, names) && Inv(hist[b])
    requires !hist[k].e.committed && !hist[k].e.unmarked && n in names && n in hist[b].w.disk.live
    ensures var t, file := hist[k], Some(hist[b].w.disk.live[n]);
            && (At(RecoverDisk(t.w.disk).live, n) == file
                <==> n !in t.e.lost + Doomed(t) || At(t.w.disk.live, n) == file)
            && (!hist[b].w.disk.marker ==> t.e.lost + Doomed(t) == {})
            && (t.p.Rebuilding? ==> n in t.e.staged)
  {
    EveryRunCovers(hist, log, b, k, names);
    RecoveredSide(hist[k]);
    assert n in Due(hist[k].e, names);
  }

  /** From step `b` on the rebuild writes only names that are aside by then. */
  ghost predicate StagedWrites(hist: seq<State>, log: seq<Step>, b: nat, k: nat)
    requires k <= |log| && |hist| == |log| + 1
  {
    forall j :: b < j < k && log[j].Write? ==> log[j].n in hist[j].e.staged
  }

  lemma {:induction false} NothingDirty(hist: seq<State>, log: seq<Step>, b: nat, k: nat, names: seq<Name>)
    requires Behaviour(hist, log) && RunOver(log, b, k, names) && StagedWrites(hist, log, b, k)
    ensures hist[k].e.dirty == {}
  {
    assert NextAt(hist, log, k - 1);
    if k > b + 1 {
      NothingDirty(hist, log, b, k - 1, names);
    }
  }

  /**
   A run that keeps to its own names is all or nothing: a recovery before its commit point
   gives back exactly the directory the run found.
   */
  lemma StagedRunIsUndoneWhole(hist: seq<State>, log: seq<Step>, b: nat, k: nat, names: seq<Name>)
    requires Behaviour(hist, log) && RunOver(log, b, k, names) && Inv(hist[b]) && !hist[b].w.disk.marker
    requires StagedWrites(hist, log, b, k) && !hist[k].e.committed && !hist[k].e.unmarked
    ensures RecoverDisk(hist[k].w.disk).live == hist[b].w.disk.live
  {
    EveryRunCovers(hist, log, b, k, names);
    NothingDirty(hist, log, b, k, names);
    RecoveredSide(hist[k]);
    SameFiles(RecoverDisk(hist[k].w.disk).live, hist[k].e.base);
  }
}
