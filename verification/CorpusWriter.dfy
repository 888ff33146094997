/**
 The writers of corpus.json: the refresh loop and the event loop share one path lock, held
 from the store read to the rename, and one flag, `queued`, that the loop reads without the
 lock. The machine interleaves any number of writers with changes of the store, one atomic
 action at a time; every store read and every write may fail.
 */
module CorpusWriter {
  import opened Prelude

  type Tid = nat
  const LOOP: Tid := 0

  /** corpus.json: the queue depth it shows (-1 when unknown) and which store read it came from. */
  datatype Snapshot = Snapshot(pending: int, read: nat)

  /** Where one call of writeCorpusSnapshotPending stands. */
  datatype Writer =
    | Out
    | Waiting
    | Locked
    | Built(snap: Snapshot)
    | Landed(snap: Snapshot)
    | Leaving(failed: bool)

  datatype Loop = Writing | Sleeping | Ticked(running: bool)

  datatype Machine = Machine(
    file: Option<Snapshot>, queued: bool, lock: Option<Tid>, writers: map<Tid, Writer>,
    loop: Loop, retry: bool,
    storePending: int, running: bool,  // what the store and the indexing state answer now
    readings: nat,                      // store reads so far
    wrote: bool,                       // some write of this process has returned without error
    landed: seq<nat>)                  // the reads behind the files that landed, in order

  datatype Step =
    | StoreChanges(pending: int)
    | RunningChanges(running: bool)
    | Call(t: Tid)
    | Lock(t: Tid)
    | ReadStore(t: Tid, ok: bool)
    | Rename(t: Tid, ok: bool)
    | RecordQueued(t: Tid)
    | Unlock(t: Tid)
    | Tick
    | Skip
    | Refresh

  function Of(m: Machine, t: Tid): Writer {
    if t in m.writers then m.writers[t] else Out
  }

  predicate Enabled(m: Machine, a: Step) {
    match a
    case StoreChanges(_) => true
    case RunningChanges(_) => true
    case Call(t) => Of(m, t).Out? && t != LOOP
    case Lock(t) => Of(m, t).Waiting? && m.lock.None?
    case ReadStore(t, _) => Of(m, t).Locked?
    case Rename(t, _) => Of(m, t).Built?
    case RecordQueued(t) => Of(m, t).Landed?
    case Unlock(t) => Of(m, t).Leaving?
    case Tick => m.loop.Sleeping?
    case Skip => m.loop.Ticked? && !m.loop.running && !m.retry && !m.queued
    case Refresh => m.loop.Ticked? && (m.loop.running || m.retry || m.queued)
  }

  function At(m: Machine, t: Tid, w: Writer): Machine {
    m.(writers := m.writers[t := w])
  }

  function Do(m: Machine, a: Step): Machine
    requires Enabled(m, a)
  {
    match a
    case StoreChanges(p) => m.(storePending := p)
    case RunningChanges(r) => m.(running := r)
    case Call(t) => At(m, t, Waiting)
    case Lock(t) => At(m, t, Locked).(lock := Some(t))
    case ReadStore(t, ok) =>
      var w := if ok then Built(Snapshot(m.storePending, m.readings + 1)) else Leaving(true);
      At(m, t, w).(readings := m.readings + 1)
    case Rename(t, ok) =>
      var snap := Of(m, t).snap;
      if ok then At(m, t, Landed(snap)).(file := Some(snap), landed := m.landed + [snap.read])
      else At(m, t, Leaving(true))
    case RecordQueued(t) => At(m, t, Leaving(false)).(queued := Of(m, t).snap.pending > 0)
    case Unlock(t) =>
      var failed := Of(m, t).failed;
      var m' := At(m, t, Out).(lock := None, wrote := m.wrote || !failed);
      if t == LOOP then m'.(loop := Sleeping, retry := failed) else m'
    case Tick => m.(loop := Ticked(m.running))
    case Skip => m.(loop := Sleeping)
    case Refresh => At(m, LOOP, Waiting).(loop := Writing)
  }

  /** The process starts with the loop's first write under way; an older file may exist. */
  ghost predicate Starts(m: Machine) {
    && m.lock.None? && m.writers == map[LOOP := Waiting] && m.loop.Writing?
    && !m.queued && !m.retry && !m.wrote && m.readings == 0 && m.landed == []
    && (m.file.Some? ==> m.file.value.read == 0)
  }

  predicate ShowsWork(m: Machine) {
    m.file.Some? && m.file.value.pending > 0
  }

  ghost predicate Increasing(q: seq<nat>) {
    forall i, j :: 0 <= i < j < |q| ==> q[i] < q[j]
  }

  function LastLanded(m: Machine): nat {
    if m.landed == [] then 0 else m.landed[|m.landed| - 1]
  }

  ghost predicate WriterOk(m: Machine, t: Tid) {
    var w := Of(m, t);
    && (m.lock == Some(t) <==> !w.Out? && !w.Waiting?)
    && (w.Built? ==> w.snap.read == m.readings && LastLanded(m) < m.readings)
    && (w.Landed? ==> m.file == Some(w.snap) && m.landed != [])
    && (w.Leaving? && !w.failed ==> m.landed != [] && m.queued == ShowsWork(m))
    && (m.wrote && (w.Locked? || w.Built? || w.Leaving?) ==> m.queued == ShowsWork(m))
  }

  ghost predicate FileOk(m: Machine) {
    && (m.lock.None? && m.wrote ==> m.queued == ShowsWork(m))
    && LastLanded(m) <= m.readings
    && (m.file.Some? && m.landed != [] ==> m.file.value.read == LastLanded(m))
    && (m.wrote ==> m.landed != []) && (m.landed != [] ==> m.file.Some?)
    && (!m.loop.Writing? ==> m.wrote || m.retry)
    && (m.loop.Writing? <==> !Of(m, LOOP).Out?)
  }

  ghost predicate Inv(m: Machine) {
    (forall t :: WriterOk(m, t)) && FileOk(m) && Increasing(m.landed)
  }

  function Actor(a: Step): Tid {
    match a
    case Call(t) => t
    case Lock(t) => t
    case ReadStore(t, _) => t
    case Rename(t, _) => t
    case RecordQueued(t) => t
    case Unlock(t) => t
    case _ => LOOP
  }

  lemma ActorStaysOk(m: Machine, a: Step)
    requires FileOk(m) && Enabled(m, a) && WriterOk(m, Actor(a))
    ensures WriterOk(Do(m, a), Actor(a))
  {
    if a.Lock? || a.ReadStore? || a.Rename? || a.RecordQueued? || a.Unlock? {
      LockedStepStaysOk(m, a);
    } else {
      assert Do(m, a).lock == m.lock && Do(m, a).queued == m.queued && Do(m, a).file == m.file;
      FreeStepStaysOk(m, a, Actor(a));
    }
  }

  /** The steps of a write from its lock to its unlock. */
  lemma LockedStepStaysOk(m: Machine, a: Step)
    requires FileOk(m) && Enabled(m, a) && WriterOk(m, Actor(a))
    requires a.Lock? || a.ReadStore? || a.Rename? || a.RecordQueued? || a.Unlock?
    ensures WriterOk(Do(m, a), Actor(a))
  {}

  /** The other steps, as any thread sees them. */
  lemma FreeStepStaysOk(m: Machine, a: Step, t: Tid)
    requires Enabled(m, a) && WriterOk(m, t)
    requires !a.Lock? && !a.ReadStore? && !a.Rename? && !a.RecordQueued? && !a.Unlock?
    requires FileOk(m)
    ensures WriterOk(Do(m, a), t)
  {}

  /** While one thread is between its lock and its unlock, every other is outside or waiting. */
  lemma OthersWait(m: Machine, a: Step, t: Tid)
    requires Enabled(m, a) && t != Actor(a) && WriterOk(m, t) && WriterOk(m, Actor(a))
    requires a.Lock? || a.ReadStore? || a.Rename? || a.RecordQueued? || a.Unlock?
    ensures Of(Do(m, a), t) == Of(m, t) && Do(m, a).lock != Some(t) && (Of(m, t).Out? || Of(m, t).Waiting?)
  {}

  lemma OtherStaysOk(m: Machine, a: Step, t: Tid)
    requires FileOk(m) && Enabled(m, a) && t != Actor(a)
    requires WriterOk(m, t) && WriterOk(m, Actor(a))
    ensures WriterOk(Do(m, a), t)
  {
    if a.Lock? || a.ReadStore? || a.Rename? || a.RecordQueued? || a.Unlock? {
      OthersWait(m, a, t);
    } else {
      FreeStepStaysOk(m, a, t);
    }
  }

  lemma WriterStaysOk(m: Machine, a: Step, t: Tid)
    requires FileOk(m) && Enabled(m, a)
    requires WriterOk(m, t) && WriterOk(m, Actor(a))
    ensures WriterOk(Do(m, a), t)
  {
    if t == Actor(a) {
      ActorStaysOk(m, a);
    } else {
      OtherStaysOk(m, a, t);
    }
  }

  lemma UnlockKeepsFile(m: Machine, a: Step)
    requires FileOk(m) && Enabled(m, a) && WriterOk(m, Actor(a)) && a.Unlock?
    ensures FileOk(Do(m, a))
  {}

  lemma RenameKeepsFile(m: Machine, a: Step)
    requires FileOk(m) && Enabled(m, a) && WriterOk(m, Actor(a)) && a.Rename?
    ensures FileOk(Do(m, a))
  {}

  lemma FileStaysOk(m: Machine, a: Step)
    requires FileOk(m) && Enabled(m, a) && WriterOk(m, Actor(a))
    ensures FileOk(Do(m, a))
  {
    if a.Unlock? {
      UnlockKeepsFile(m, a);
    } else if a.Rename? {
      RenameKeepsFile(m, a);
    }
  }

  lemma StepKeepsInv(m: Machine, a: Step)
    requires Inv(m) && Enabled(m, a)
    ensures Inv(Do(m, a))
  {
    assert WriterOk(m, Actor(a));
    FileStaysOk(m, a);
    forall t ensures WriterOk(Do(m, a), t) {
      assert WriterOk(m, t);
      WriterStaysOk(m, a, t);
    }
    if a.Rename? && a.ok {
      AppendIncreasing(m.landed, Of(m, a.t).snap.read, LastLanded(m));
    } else {
      assert Do(m, a).landed == m.landed;
    }
  }

  lemma AppendIncreasing(q: seq<nat>, x: nat, last: nat)
    requires Increasing(q) && last < x && (q != [] ==> last == q[|q| - 1])
    ensures Increasing(q + [x])
  {
    forall i, j | 0 <= i < j < |q + [x]| ensures (q + [x])[i] < (q + [x])[j] {
      if j == |q| {
        assert q[i] <= q[|q| - 1];
      }
    }
  }

  ghost predicate NextAt(hist: seq<Machine>, steps: seq<Step>, k: nat)
    requires k < |steps| && |hist| == |steps| + 1
  {
    Enabled(hist[k], steps[k]) && hist[k + 1] == Do(hist[k], steps[k])
  }

  ghost predicate Execution(hist: seq<Machine>, steps: seq<Step>) {
    |hist| == |steps| + 1 && Starts(hist[0]) && forall k :: 0 <= k < |steps| ==> NextAt(hist, steps, k)
  }

  lemma {:induction false} InvThroughout(hist: seq<Machine>, steps: seq<Step>, k: nat)
    requires Execution(hist, steps) && k < |hist|
    ensures Inv(hist[k])
  {
    if k == 0 {
      assert forall t :: WriterOk(hist[0], t);
    } else {
      InvThroughout(hist, steps, k - 1);
      assert NextAt(hist, steps, k - 1);
      StepKeepsInv(hist[k - 1], steps[k - 1]);
    }
  }

  /**
   Whenever the path lock is free after a write that succeeded, `queued` says exactly
   whether the file on disk shows work, and that file comes from the last store read of
   any write that landed: files land in the order their writers read the store.
   */
  lemma QueuedDescribesTheFile(hist: seq<Machine>, steps: seq<Step>, k: nat)
    requires Execution(hist, steps) && k < |hist| && hist[k].lock.None? && hist[k].wrote
    ensures hist[k].file.Some? && hist[k].landed != []
    ensures hist[k].queued <==> hist[k].file.value.pending > 0
    ensures forall i :: 0 <= i < |hist[k].landed| ==> hist[k].landed[i] <= hist[k].file.value.read
    ensures Increasing(hist[k].landed)
  {
    InvThroughout(hist, steps, k);
  }

  /**
   The loop goes quiet only over a file without known pending work: at a skipped tick with
   no writer in flight the file shows none, and with one in flight the file will agree with
   `queued` again before that writer lets the lock go.
   */
  lemma SkippedTickMeansNoKnownWork(hist: seq<Machine>, steps: seq<Step>, k: nat)
    requires Execution(hist, steps) && k < |steps| && steps[k].Skip?
    ensures hist[k].wrote && hist[k].file.Some? && hist[k].loop == Ticked(false) && !hist[k].retry
    ensures hist[k].lock.None? ==> hist[k].file.value.pending <= 0
    ensures hist[k].lock.Some? ==>
              Of(hist[k], hist[k].lock.value).Landed? || hist[k].file.value.pending <= 0
  {
    InvThroughout(hist, steps, k);
    assert NextAt(hist, steps, k);
    if hist[k].lock.Some? {
      assert WriterOk(hist[k], hist[k].lock.value);
    }
  }

  /** No two writes are between their store read and their rename at the same time. */
  lemma WritesDoNotOverlap(hist: seq<Machine>, steps: seq<Step>, k: nat, t: Tid, u: Tid)
    requires Execution(hist, steps) && k < |hist| && t != u
    requires !Of(hist[k], t).Out? && !Of(hist[k], t).Waiting?
    ensures Of(hist[k], u).Out? || Of(hist[k], u).Waiting?
  {
    InvThroughout(hist, steps, k);
    assert WriterOk(hist[k], t) && WriterOk(hist[k], u);
  }

  /* ---- the two functions in the source's form, one whole locked write at a time ---- */

  /** One write: the pending work its store read shows, if it works, and whether the rename does. */
  datatype Attempt = Attempt(storeRead: Option<int>, renames: bool)

  predicate Lands(a: Attempt) {
    a.storeRead.Some? && a.renames
  }

  /** What corpus.json shows after these attempts. */
  function Latest(older: Option<int>, tries: seq<Attempt>): Option<int> {
    if tries == [] then older
    else
      var last := tries[|tries| - 1];
      if Lands(last) then last.storeRead else Latest(older, tries[..|tries| - 1])
  }

  lemma {:induction false} LatestSplits(older: Option<int>, a: seq<Attempt>, b: seq<Attempt>)
    ensures Latest(older, a + b) == Latest(Latest(older, a), b)
    decreases |b|
  {
    if b == [] {
      assert a + b == a;
    } else {
      assert (a + b)[..|a + b| - 1] == a + b[..|b| - 1];
      LatestSplits(older, a, b[..|b| - 1]);
    }
  }

  /** One tick of the loop: the writes of the event loop before it, the state it reads, its own write. */
  datatype Tick = Tick(others: seq<Attempt>, running: bool, own: Attempt)

  /** Every write of both loops, the skipped ones left out. */
  function Tries(first: Attempt, ticks: seq<Tick>, skipped: seq<bool>): seq<Attempt>
    requires |ticks| == |skipped|
  {
    if ticks == [] then [first]
    else
      var k := |ticks| - 1;
      Tries(first, ticks[..k], skipped[..k]) + ticks[k].others + if skipped[k] then [] else [ticks[k].own]
  }

  /** The loop's own newest write did not land. */
  predicate OwnFailed(first: Attempt, ticks: seq<Tick>, skipped: seq<bool>)
    requires |ticks| == |skipped|
  {
    if ticks == [] then !Lands(first)
    else
      var k := |ticks| - 1;
      if skipped[k] then OwnFailed(first, ticks[..k], skipped[..k]) else !Lands(ticks[k].own)
  }

  /** A tick may be skipped: no run, no failed write of its own, and a file that shows nothing pending. */
  predicate MaySkip(older: Option<int>, first: Attempt, ticks: seq<Tick>, skipped: seq<bool>, next: Tick)
    requires |ticks| == |skipped|
  {
    var shown := Latest(older, Tries(first, ticks, skipped) + next.others);
    !next.running && !OwnFailed(first, ticks, skipped) && shown.Some? && shown.value <= 0
  }

  /** Each of the ticks was skipped exactly when it may be. */
  ghost predicate Decided(older: Option<int>, first: Attempt, ticks: seq<Tick>, skipped: seq<bool>) {
    && |skipped| == |ticks|
    && forall k :: 0 <= k < |ticks| ==> (skipped[k] <==> MaySkip(older, first, ticks[..k], skipped[..k], ticks[k]))
  }

  lemma NextDecided(older: Option<int>, first: Attempt, ticks: seq<Tick>, skipped: seq<bool>, next: Tick, skip: bool)
    requires Decided(older, first, ticks, skipped) && (skip <==> MaySkip(older, first, ticks, skipped, next))
    ensures Decided(older, first, ticks + [next], skipped + [skip])
    ensures Tries(first, ticks + [next], skipped + [skip])
         == Tries(first, ticks, skipped) + next.others + if skip then [] else [next.own]
    ensures OwnFailed(first, ticks + [next], skipped + [skip])
        <==> if skip then OwnFailed(first, ticks, skipped) else !Lands(next.own)
  {
    var all, decisions := ticks + [next], skipped + [skip];
    assert all[..|ticks|] == ticks && decisions[..|ticks|] == skipped;
    forall k | 0 <= k < |all| ensures decisions[k] <==> MaySkip(older, first, all[..k], decisions[..k], all[k]) {
      if k < |ticks| {
        assert all[..k] == ticks[..k] && decisions[..k] == skipped[..k];
      }
    }
  }

  class CorpusFile {
    var file: Option<int>  // the depth corpus.json shows
    var queued: bool
    ghost var wrote: bool

    ghost predicate Valid()
      reads this
    {
      if wrote then file.Some? && queued == (file.value > 0) else !queued
    }

    constructor (older: Option<int>)
      ensures Valid() && file == older && !queued && !wrote
    {
      file, queued, wrote := older, false, false;
    }

    /** writeCorpusSnapshotPending, under the path lock; the store read or the rename may fail. */
    method WriteSnapshotPending(a: Attempt) returns (pending: int, err: bool)
      requires Valid()
      modifies this
      ensures Valid()
      ensures err <==> a.storeRead.None? || !a.renames
      ensures err ==> pending == 0 && file == old(file) && queued == old(queued) && wrote == old(wrote)
      ensures !err ==> wrote && a.storeRead == file == Some(pending) && queued == (pending > 0)
    {
      if a.storeRead.None? || !a.renames {
        return 0, true;
      }
      file := a.storeRead;
      queued := a.storeRead.value > 0;
      wrote := true;
      pending, err := a.storeRead.value, false;
    }

    /** Whole writes by the event loop. */
    method OtherWriters(tries: seq<Attempt>)
      requires Valid()
      modifies this
      ensures Valid() && (old(wrote) ==> wrote) && file == Latest(old(file), tries)
    {
      var i := 0;
      while i < |tries|
        invariant 0 <= i <= |tries|
        invariant Valid() && (old(wrote) ==> wrote) && file == Latest(old(file), tries[..i])
      {
        assert tries[..i + 1][..i] == tries[..i];
        var _, _ := WriteSnapshotPending(tries[i]);
        i := i + 1;
      }
      assert tries[..|tries|] == tries;
    }
  }

  lemma LandedOrNot(older: Option<int>, a: Attempt)
    ensures Latest(older, [a]) == if Lands(a) then a.storeRead else older
  {
    assert [a][..0] == [];
  }

  /** One tick of the loop. */
  method RunTick(c: CorpusFile, t: Tick, retry: bool) returns (skip: bool, failed: bool)
    requires c.Valid() && (retry || c.wrote)
    modifies c
    ensures c.Valid() && (failed || c.wrote)
    ensures var shown := Latest(old(c.file), t.others);
            && (skip <==> !t.running && !retry && shown.Some? && shown.value <= 0)
            && failed == (if skip then retry else !Lands(t.own))
            && c.file == if !skip && Lands(t.own) then t.own.storeRead else shown
  {
    c.OtherWriters(t.others);
    skip, failed := !t.running && !retry && !c.queued, retry;
    if !skip {
      var _, err := c.WriteSnapshotPending(t.own);
      failed := err;
    }
  }

  /**
   runCorpusWriterWithInterval, with one entry of `skipped` for each tick: the loop rests
   exactly while no run is on, its own newest write landed, and the file shows nothing
   pending, whichever writer wrote it; and the file is the newest write that landed.
   */
  method RunCorpusWriter(c: CorpusFile, first: Attempt, ticks: seq<Tick>) returns (skipped: seq<bool>)
    requires c.Valid()
    modifies c
    ensures c.Valid() && Decided(old(c.file), first, ticks, skipped)
    ensures c.file == Latest(old(c.file), Tries(first, ticks, skipped))
  {
    ghost var older := c.file;
    var _, retry := c.WriteSnapshotPending(first);
    LandedOrNot(older, first);
    skipped := [];
    var i := 0;
    while i < |ticks|
      invariant 0 <= i <= |ticks|
      invariant Decided(older, first, ticks[..i], skipped)
      invariant c.Valid() && (retry || c.wrote) && retry == OwnFailed(first, ticks[..i], skipped)
      invariant c.file == Latest(older, Tries(first, ticks[..i], skipped))
    {
      ghost var tries := Tries(first, ticks[..i], skipped);
      LatestSplits(older, tries, ticks[i].others);
      var skip;
      skip, retry := RunTick(c, ticks[i], retry);
      NextDecided(older, first, ticks[..i], skipped, ticks[i], skip);
      NewestLands(older, tries + ticks[i].others, ticks[i].own, skip);
      assert ticks[..i + 1] == ticks[..i] + [ticks[i]];
      skipped := skipped + [skip];
      i := i + 1;
    }
    assert ticks[..|ticks|] == ticks;
  }

  lemma NewestLands(older: Option<int>, tries: seq<Attempt>, own: Attempt, skip: bool)
    ensures Latest(older, tries + if skip then [] else [own])
         == if !skip && Lands(own) then own.storeRead else Latest(older, tries)
  {
    assert tries + [] == tries && (tries + [own])[..|tries|] == tries;
  }
}
