/**
 The crash-safe reindex protocol of internal/cli/reindex.go as a state machine.

 `Disk` and `Store` are what survives a crash: the state directory (live index files,
 their `*.reindex-old` copies, the commit marker) and the metadata store (the content
 hashes and the optional hash snapshot). `Phase` is the volatile position of the one
 process that may run. A `Step` is one atomic operation with its outcome, so a failed
 rename, unlink or SQL statement is a step too. `Crash` is possible everywhere.

 `Epoch` is history the theorems speak about; no step reads it to decide anything.
 */
module ReindexProtocol {
  import opened Prelude

  type Name = string
  type Doc = nat

  /** An index file: what it holds, and whether it was finished. */
  datatype File = File(content: nat, whole: bool)

  datatype Disk = Disk(live: map<Name, File>, backup: map<Name, File>, marker: bool)

  /** documents.content_hash: None is the cleared hash, Some(g) a hash written by generation g. */
  type Hashes = map<Doc, Option<nat>>

  datatype Store = Store(docs: Hashes, snap: Option<Hashes>)

  datatype World = World(disk: Disk, store: Store)

  datatype Epoch = Epoch(
    gen: nat,                 // generation the corpus counts as being at
    base: map<Name, File>,    // live files when the current run began
    docs0: Hashes,            // hashes when the current run began
    staged: set<Name>,        // names the current run moved aside
    written: set<Name>,       // names the rebuild wrote
    dirty: set<Name>,         // names the rebuild wrote without having moved them aside
    late: set<Doc>,           // documents first hashed by a rebuild that never got a marked commit
    residue: set<Name>,       // backup slots already occupied when the run began
    lost: set<Name>,          // moved-aside names whose backup was discarded before a commit
    torn: set<Name>,          // names whose file an earlier run wrote and left unfinished
    committed: bool,          // the current run passed its commit point
    unmarked: bool,           // it passed it without a marker on disk
    rebuilt: map<Name, File>) // live files at the commit point

  datatype Phase =
    | Down
    | Adopting(todo: set<Name>)
    | Finishing(todo: set<Name>, failed: bool)
    | Rehash(written: bool)
    | Ready
    | Snapped(names: seq<Name>)
    | Staging(rest: seq<Name>, moved: seq<Name>)
    | Rebuilding(moved: seq<Name>)
    | Unlinking(rest: seq<Name>, failed: bool)
    | Discarding
    | Closing
    | UndoHash(moved: seq<Name>, built: bool, written: bool) // `built`: the rebuild had started
    | UndoClose(moved: seq<Name>)
    | PutBack(rest: seq<Name>)

  datatype State = State(w: World, e: Epoch, p: Phase)

  datatype Step =
    | Crash
    // recoverInterruptedReindex and finishInterruptedReindexCommit
    | OpenDir
    | Adopt(n: Name, ok: bool)
    | AdoptDone
    | Discard(n: Name, ok: bool)
    | ClearMarker(ok: bool)
    | LeaveMarker
    // RestoreContentHashes: one UPDATE, then one DROP
    | RestoreUpdate(ok: bool)
    | RestoreDrop(ok: bool)
    | NoSnapshot
    // prepareReindexStore
    | Begin(names: seq<Name>)
    | ClearHashes(ok: bool)
    | MoveAside
    | SkipMissing
    | StageFails
    | StagingDone
    // the rebuild
    | Write(n: Name, f: File)
    | SetHash(d: Doc, written: bool)
    | RebuildFails
    // commitReindex
    | Mark(present: bool)
    | NothingToCommit
    | Unlink(ok: bool)
    | Unmark(ok: bool)
    | KeepMarker
    | DropSnapshot(ok: bool)
    // closing the store, and the file half of rollbackReindex
    | CloseStore
    | Restore(ok: bool)
    | RollbackDone

  /** The rows of the snapshot written over the documents that still exist. */
  function Overlay(docs: Hashes, snap: Hashes): Hashes {
    map d | d in docs :: if d in snap then snap[d] else docs[d]
  }

  function Cleared(docs: Hashes): Hashes {
    map x | x in docs :: None
  }

  /** Which step the process may take next. Each clause is one guard of the source. */
  predicate Enabled(s: State, a: Step) {
    var d, st := s.w.disk, s.w.store;
    match a
    case Crash => true
    case OpenDir => s.p.Down?
    case Adopt(n, _) => s.p.Adopting? && n in s.p.todo && n in d.backup
    case AdoptDone => s.p.Adopting? && s.p.todo == {}
    case Discard(n, _) => s.p.Finishing? && n in s.p.todo
    case ClearMarker(_) => s.p.Finishing? && s.p.todo == {} && !s.p.failed
    case LeaveMarker => s.p.Finishing? && s.p.todo == {} && s.p.failed
    case RestoreUpdate(ok) => (s.p.Rehash? || s.p.UndoHash?) && !s.p.written && (ok ==> st.snap.Some?)
    case RestoreDrop(_) => (s.p.Rehash? || s.p.UndoHash?) && s.p.written && st.snap.Some?
    case NoSnapshot => (s.p.Rehash? || s.p.UndoHash?) && st.snap.None?
    case Begin(_) => s.p.Ready? && st.snap.None?
    case ClearHashes(_) => s.p.Snapped?
    case MoveAside => s.p.Staging? && s.p.rest != [] && s.p.rest[0] !in d.backup && s.p.rest[0] in d.live
    case SkipMissing => s.p.Staging? && s.p.rest != [] && s.p.rest[0] !in d.backup && s.p.rest[0] !in d.live
    case StageFails => s.p.Staging? && s.p.rest != []
    case StagingDone => s.p.Staging? && s.p.rest == []
    case Write(_, _) => s.p.Rebuilding? || s.p.UndoClose?
    case SetHash(_, _) => s.p.Rebuilding?
    case RebuildFails => s.p.Rebuilding?
    case Mark(_) => s.p.Rebuilding? && s.p.moved != []
    case NothingToCommit => s.p.Rebuilding? && s.p.moved == []
    case Unlink(_) => s.p.Unlinking? && s.p.rest != []
    case Unmark(_) => s.p.Unlinking? && s.p.rest == [] && !s.p.failed
    case KeepMarker => s.p.Unlinking? && s.p.rest == [] && s.p.failed
    case DropSnapshot(_) => s.p.Discarding?
    case CloseStore => s.p.Closing? || s.p.UndoClose?
    case Restore(_) => s.p.PutBack? && s.p.rest != []
    case RollbackDone => s.p.PutBack? && s.p.rest == []
  }

  function SetDisk(s: State, d: Disk, p: Phase): State {
    s.(w := s.w.(disk := d), p := p)
  }

  function SetStore(s: State, st: Store, p: Phase): State {
    s.(w := s.w.(store := st), p := p)
  }

  /** The rename `n.reindex-old` -> `n`, which replaces the live slot. */
  function RenameBack(d: Disk, n: Name): Disk {
    if n in d.backup then d.(live := d.live[n := d.backup[n]], backup := d.backup - {n}) else d
  }

  function UnlinkBackup(d: Disk, n: Name): Disk {
    d.(backup := d.backup - {n})
  }

  predicate Unfinished(files: map<Name, File>, n: Name) {
    n in files && !files[n].whole
  }

  /** The documents whose hash is newer than generation `g`. */
  function Ahead(docs: Hashes, g: nat): set<Doc> {
    set x | x in docs && !StampAtMost(docs[x], g)
  }

  /** A rebuild's store is closed before its files go back; a store nothing was rebuilt in, after. */
  function AfterUndo(p: Phase): Phase
    requires p.UndoHash?
  {
    if p.built then UndoClose(p.moved) else PutBack(p.moved)
  }

  /** A new run: what is live and hashed now is what a rollback must bring back. */
  function BeginEpoch(s: State): Epoch {
    var d, st, e := s.w.disk, s.w.store, s.e;
    Epoch(e.gen, d.live, st.docs, {}, {}, {},
          if e.unmarked then e.late + Ahead(st.docs, e.gen) else e.late,
          d.backup.Keys, {},
          set n | n in e.torn + e.written && (Unfinished(d.live, n) || Unfinished(d.backup, n)),
          false, false, map[])
  }

  /** The commit point: the live files are the new generation. */
  function CommitEpoch(s: State): Epoch {
    s.e.(gen := s.e.gen + 1, committed := true, rebuilt := s.w.disk.live, late := {})
  }

  /** What becomes of the run once its marker was written, or was not. */
  function MarkEpoch(s: State, marker: bool): Epoch {
    if marker then CommitEpoch(s) else s.e.(unmarked := true, rebuilt := s.w.disk.live)
  }

  function Do(s: State, a: Step): State
    requires Enabled(s, a)
  {
    var d, st := s.w.disk, s.w.store;
    match a
    case Crash => s.(p := Down)
    case OpenDir => s.(p := if d.marker then Finishing(d.backup.Keys, false) else Adopting(d.backup.Keys))
    case Adopt(n, ok) =>
      if ok then SetDisk(s, RenameBack(d, n), Adopting(s.p.todo - {n})) else s.(p := Down)
    case AdoptDone => s.(p := Rehash(false))
    case Discard(n, ok) =>
      if ok then
        SetDisk(s, UnlinkBackup(d, n), Finishing(s.p.todo - {n}, s.p.failed))
        .(e := if s.e.committed then s.e else s.e.(lost := s.e.lost + ({n} * s.e.staged)))
      else s.(p := Finishing(s.p.todo - {n}, true))
    case ClearMarker(ok) => SetDisk(s, if ok then d.(marker := false) else d, Rehash(false))
    case LeaveMarker => s.(p := Rehash(false))
    case RestoreUpdate(ok) =>
      if ok then SetStore(s, st.(docs := Overlay(st.docs, st.snap.value)),
                          if s.p.Rehash? then Rehash(true) else s.p.(written := true))
      else s.(p := if s.p.Rehash? then Down else AfterUndo(s.p))
    case RestoreDrop(ok) =>
      // a restore that matched no row still drops the snapshot, but stops a starting run
      if ok then SetStore(s, st.(snap := None),
                          if s.p.UndoHash? then AfterUndo(s.p)
                          else if st.docs.Keys * st.snap.value.Keys == {} then Down else Ready)
      else s.(p := if s.p.Rehash? then Down else AfterUndo(s.p))
    case NoSnapshot => s.(p := if s.p.Rehash? then Ready else AfterUndo(s.p))
    case Begin(names) =>
      SetStore(s, st.(snap := Some(st.docs)), Snapped(names)).(e := BeginEpoch(s))
    case ClearHashes(ok) =>
      if ok then SetStore(s, st.(docs := Cleared(st.docs)), Staging(s.p.names, []))
      else s.(p := Discarding)
    case MoveAside =>
      var n := s.p.rest[0];
      SetDisk(s, d.(live := d.live - {n}, backup := d.backup[n := d.live[n]]),
              Staging(s.p.rest[1..], s.p.moved + [n]))
      .(e := s.e.(staged := s.e.staged + {n}))
    case SkipMissing => s.(p := Staging(s.p.rest[1..], s.p.moved))
    case StageFails => s.(p := UndoHash(s.p.moved, false, false))
    case StagingDone => s.(p := Rebuilding(s.p.moved))
    case Write(n, f) =>
      SetDisk(s, d.(live := d.live[n := f]), s.p)
      .(e := s.e.(written := s.e.written + {n}, dirty := s.e.dirty + ({n} - s.e.staged)))
    case SetHash(x, written) =>
      SetStore(s, st.(docs := st.docs[x := if written then Some(s.e.gen + 1) else None]), s.p)
      .(e := if written && x !in s.e.docs0 then s.e.(late := s.e.late + {x}) else s.e)
    case RebuildFails => s.(p := UndoHash(s.p.moved, true, false))
    case Mark(present) =>
      // a marker left over from an earlier commit protects this one as well
      var marker := present || d.marker;
      SetDisk(s, d.(marker := marker), Unlinking(s.p.moved, false)).(e := MarkEpoch(s, marker))
    case NothingToCommit => s.(p := Discarding, e := CommitEpoch(s))
    case Unlink(ok) =>
      if ok then SetDisk(s, UnlinkBackup(d, s.p.rest[0]), Unlinking(s.p.rest[1..], s.p.failed))
      else s.(p := Unlinking(s.p.rest[1..], true))
    case Unmark(ok) => SetDisk(s, if ok then d.(marker := false) else d, Discarding)
    case KeepMarker => s.(p := Discarding)
    case DropSnapshot(ok) => SetStore(s, if ok then st.(snap := None) else st, Closing)
    case CloseStore => s.(p := if s.p.Closing? then Down else PutBack(s.p.moved))
    case Restore(ok) =>
      if ok then SetDisk(s, RenameBack(d, s.p.rest[0]), PutBack(s.p.rest[1..]))
      else s.(p := PutBack(s.p.rest[1..]))
    case RollbackDone => s.(p := Down)
  }

  ghost predicate Next(s: State, a: Step, s': State) {
    Enabled(s, a) && Do(s, a) == s'
  }

  ghost predicate NextAt(hist: seq<State>, log: seq<Step>, k: nat)
    requires k < |log| && |hist| == |log| + 1
  {
    Next(hist[k], log[k], hist[k + 1])
  }

  /** The states `hist` that the steps `log` lead through, one after the other. */
  ghost predicate Behaviour(hist: seq<State>, log: seq<Step>) {
    |hist| == |log| + 1 && forall k :: 0 <= k < |log| ==> NextAt(hist, log, k)
  }

  /**
   The source's own assumption about staging: the marker of an unfinished commit is gone
   when a new run starts. Where it is not, `lost` and `residue` say what that costs.
   */
  predicate Guarded(s: State, a: Step) {
    a.Begin? ==> !s.w.disk.marker
  }

  ghost predicate AllGuarded(hist: seq<State>, log: seq<Step>)
    requires |hist| == |log| + 1
  {
    forall k :: 0 <= k < |log| ==> Guarded(hist[k], log[k])
  }

  /* ---- what recovery computes from a world it finds ---- */

  function RecoverDisk(d: Disk): Disk {
    Disk(if d.marker then d.live else d.live + d.backup, map[], false)
  }

  function RecoverStore(st: Store): Store {
    Store(if st.snap.Some? then Overlay(st.docs, st.snap.value) else st.docs, None)
  }

  /* ---- the invariant ---- */

  /** The run's starting generation of `n` is in its backup slot, or else live. */
  ghost predicate Held(d: Disk, e: Epoch, n: Name) {
    (n in d.backup && n in e.staged) || At(d.live, n) == At(e.base, n)
  }

  ghost predicate AgreeOn(docs: Hashes, docs0: Hashes) {
    forall x :: x in docs && x in docs0 ==> docs[x] == docs0[x]
  }

  predicate StampAtMost(h: Option<nat>, g: nat) {
    h.Some? ==> h.value <= g
  }

  ghost predicate StampsAtMost(docs: Hashes, g: nat) {
    forall x :: x in docs ==> StampAtMost(docs[x], g)
  }

  /** Only late documents carry a hash newer than the corpus generation. */
  ghost predicate LateOnly(docs: Hashes, e: Epoch) {
    forall x :: x in docs && x !in e.late ==> StampAtMost(docs[x], e.gen)
  }

  /** Every backup is this run's copy of a starting file, or was there before the run. */
  ghost predicate Backups(d: Disk, e: Epoch) {
    && d.backup.Keys <= e.staged + e.residue
    && (forall n :: n in d.backup && n in e.staged ==> n in e.base && d.backup[n] == e.base[n])
    && e.staged !! e.dirty && e.staged !! e.residue && e.staged <= e.base.Keys && e.lost !! d.backup.Keys
  }

  /** The hashes of a run that has no marked commit. */
  ghost predicate OldHashes(st: Store, e: Epoch) {
    && (st.snap.Some? ==> st.snap.value == e.docs0)
    && LateOnly(e.docs0, e)
    && (forall x :: x in st.docs && x !in e.docs0 && x !in e.late ==> StampAtMost(st.docs[x], e.gen))
    && StampsAtMost(st.docs, e.gen + 1) && StampsAtMost(e.docs0, e.gen + 1)
  }

  /** Before the commit point. */
  ghost predicate OldSide(w: World, e: Epoch) {
    && OldHashes(w.store, e)
    && (forall n :: n !in e.dirty && n !in e.lost ==> Held(w.disk, e, n))
    && (!w.disk.marker ==> w.disk.backup.Keys <= e.staged)
    && (w.store.snap.None? ==> AgreeOn(w.store.docs, e.docs0))
  }

  /** After a commit point with the marker on disk. */
  ghost predicate NewSide(w: World, e: Epoch) {
    && (forall n :: n !in e.residue ==> At(w.disk.live, n) == At(e.rebuilt, n))
    && (w.disk.marker ==> w.disk.live == e.rebuilt)
    && (!w.disk.marker ==> w.disk.backup.Keys <= e.residue)
    && (w.store.snap.Some? ==> w.store.snap.value == e.docs0)
    && StampsAtMost(w.store.docs, e.gen) && StampsAtMost(e.docs0, e.gen)
  }

  /** A name of an unmarked commit is live as rebuilt, or was adopted from its backup again. */
  ghost predicate EitherGeneration(live: map<Name, File>, e: Epoch, n: Name) {
    At(live, n) == At(e.rebuilt, n) || (n in e.staged && At(live, n) == At(e.base, n))
  }

  /** After a commit point without a marker. */
  ghost predicate TornSide(w: World, e: Epoch) {
    && OldHashes(w.store, e)
    && !w.disk.marker && e.residue == {} && e.lost == {}
    && (forall n :: EitherGeneration(w.disk.live, e, n))
  }

  ghost predicate Core(w: World, e: Epoch) {
    && Backups(w.disk, e)
    && (if e.committed then NewSide(w, e) else if e.unmarked then TornSide(w, e) else OldSide(w, e))
  }

  function Elems(q: seq<Name>): set<Name> {
    set n | n in q
  }

  /** A run that has begun, moved exactly `moved` aside, and not reached its commit point. */
  ghost predicate Running(s: State, moved: seq<Name>) {
    && !s.e.committed && !s.e.unmarked && s.e.lost == {}
    && s.e.staged == Elems(moved) && s.w.disk.backup.Keys == s.e.staged + s.e.residue
    && (s.e.residue != {} ==> s.w.disk.marker)
  }

  ghost predicate AtPhase(s: State) {
    var d, st, e := s.w.disk, s.w.store, s.e;
    match s.p
    case Down => true
    case Adopting(todo) => !d.marker && todo == d.backup.Keys
    case Finishing(todo, failed) => d.marker && (!failed ==> todo == d.backup.Keys)
    case Rehash(written) =>
      && (d.marker || d.backup == map[])
      && (written && st.snap.Some? ==> AgreeOn(st.docs, st.snap.value))
    case Ready => (d.marker || d.backup == map[]) && st.snap.None?
    case Snapped(_) =>
      Running(s, []) && e.dirty == {} && st.snap == Some(e.docs0) && st.docs == e.docs0
    case Staging(_, moved) => Running(s, moved) && e.dirty == {} && st.snap.Some?
    case Rebuilding(moved) => Running(s, moved) && st.snap.Some?
    case Unlinking(rest, failed) =>
      if e.unmarked then !e.committed && d.live == e.rebuilt
      else e.committed && d.marker && (!failed ==> d.backup.Keys <= Elems(rest) + e.residue)
    case Discarding => e.committed || e.unmarked || st.docs == e.docs0
    case Closing => true
    case UndoHash(moved, _, written) =>
      Running(s, moved) && (written && st.snap.Some? ==> AgreeOn(st.docs, st.snap.value))
    case UndoClose(moved) => Running(s, moved)
    case PutBack(rest) => !e.committed && !e.unmarked && Elems(rest) <= e.staged
  }

  ghost predicate Inv(s: State) {
    Core(s.w, s.e) && AtPhase(s)
  }

  /** A corpus no interrupted run has touched. */
  ghost predicate Settled(s: State) {
    && s.p.Down? && !s.e.committed && !s.e.unmarked
    && s.w.disk == Disk(s.e.base, map[], false)
    && s.w.store == Store(s.e.docs0, None)
    && s.e.staged == {} && s.e.dirty == {} && s.e.written == {} && s.e.late == {}
    && s.e.residue == {} && s.e.lost == {} && s.e.torn == {}
    && StampsAtMost(s.e.docs0, s.e.gen)
    && forall n :: n in s.e.base ==> s.e.base[n].whole
  }
}
