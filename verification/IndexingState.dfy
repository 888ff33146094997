/**
 appstate.IndexingState: thirteen atomic fields behind an RWMutex that is used inverted.
 Single-field mutators share the lock, compound mutators and Snapshot exclude everybody.

 The class is the object as one caller sees it. The machine below it interleaves any number
 of threads, one lock operation or one atomic field access at a time, and the theorem is
 that every execution is linearizable: the order in which operations take effect explains
 every snapshot, and respects the order of calls that do not overlap.
 */
module IndexingState {
  import opened Prelude
  import Strings = Text

  datatype Slot =
    | JobID | Running | Mode | Scanned | Indexed | Skipped | Deleted | Representations
    | ChunksTotal | EmbeddedOK | Errors | WatchActive | WatchOverflows

  datatype Value = Text(text: string) | Flag(flag: bool) | Count(count: int)

  datatype Fields = Fields(
    jobID: string, running: bool, mode: string, scanned: int, indexed: int, skipped: int, deleted: int,
    representations: int, chunksTotal: int, embeddedOK: int, errors: int, watchActive: bool, watchOverflows: int)

  function Get(f: Fields, slot: Slot): Value {
    match slot
    case JobID => Text(f.jobID)
    case Running => Flag(f.running)
    case Mode => Text(f.mode)
    case Scanned => Count(f.scanned)
    case Indexed => Count(f.indexed)
    case Skipped => Count(f.skipped)
    case Deleted => Count(f.deleted)
    case Representations => Count(f.representations)
    case ChunksTotal => Count(f.chunksTotal)
    case EmbeddedOK => Count(f.embeddedOK)
    case Errors => Count(f.errors)
    case WatchActive => Flag(f.watchActive)
    case WatchOverflows => Count(f.watchOverflows)
  }

  /** Each field has one type; a value of another type is never stored. */
  function Put(f: Fields, slot: Slot, v: Value): Fields {
    match (slot, v)
    case (JobID, Text(x)) => f.(jobID := x)
    case (Running, Flag(x)) => f.(running := x)
    case (Mode, Text(x)) => f.(mode := x)
    case (Scanned, Count(x)) => f.(scanned := x)
    case (Indexed, Count(x)) => f.(indexed := x)
    case (Skipped, Count(x)) => f.(skipped := x)
    case (Deleted, Count(x)) => f.(deleted := x)
    case (Representations, Count(x)) => f.(representations := x)
    case (ChunksTotal, Count(x)) => f.(chunksTotal := x)
    case (EmbeddedOK, Count(x)) => f.(embeddedOK := x)
    case (Errors, Count(x)) => f.(errors := x)
    case (WatchActive, Flag(x)) => f.(watchActive := x)
    case (WatchOverflows, Count(x)) => f.(watchOverflows := x)
    case _ => f
  }

  datatype Op =
    | Set(slot: Slot, value: Value)   // SetJobID, SetMode, SetRunning, MarkWatchActive
    | Add(counter: Slot, delta: int)  // AddScanned .. AddErrors
    | ResetProgress
    | AddWatchOverflow(burst: int)
    | Snapshot

  datatype Access = Store(slot: Slot, value: Value) | Increment(slot: Slot, delta: int) | Load(slot: Slot)

  /** What a signed 64-bit counter can hold. */
  predicate Fits(n: int) {
    -0x8000_0000_0000_0000 <= n < 0x8000_0000_0000_0000
  }

  /** Two's-complement 64-bit addition, as atomic.Int64 adds. */
  function Wrap(n: int): (r: int)
    ensures Fits(r) && (n - r) % 0x1_0000_0000_0000_0000 == 0
    ensures Fits(n) ==> r == n
  {
    (n + 0x8000_0000_0000_0000) % 0x1_0000_0000_0000_0000 - 0x8000_0000_0000_0000
  }

  /** `now` is what a 64-bit counter shows that counted to `sum`: the sum itself wherever it fits. */
  predicate Shows(now: int, sum: int) {
    Fits(now) && (now - sum) % 0x1_0000_0000_0000_0000 == 0
  }

  lemma ShowsIsExact(now: int, sum: int)
    requires Shows(now, sum) && -0x8000_0000_0000_0000 <= sum < 0x8000_0000_0000_0000
    ensures now == sum
  {
    var d := now - sum;
    assert d == 0x1_0000_0000_0000_0000 * (d / 0x1_0000_0000_0000_0000);
  }

  /** The order in which Snapshot loads the fields. */
  const SLOTS: seq<Slot> := [JobID, Running, Mode, Scanned, Indexed, Skipped, Deleted, Representations,
                             ChunksTotal, EmbeddedOK, Errors, WatchActive, WatchOverflows]

  /** The order in which ResetProgress stores its zeros. */
  const RESET: seq<Slot> := [Indexed, Skipped, Deleted, Representations, ChunksTotal, Errors, Scanned]

  /** The atomic accesses of each method body, in program order. */
  function Program(op: Op): seq<Access> {
    match op
    case Set(slot, value) => [Store(slot, value)]
    case Add(counter, delta) => [Increment(counter, delta)]
    case ResetProgress => seq(|RESET|, i requires 0 <= i < |RESET| => Store(RESET[i], Count(0)))
    case AddWatchOverflow(burst) => [Store(WatchActive, Flag(true)), Increment(WatchOverflows, burst)]
    case Snapshot => seq(|SLOTS|, i requires 0 <= i < |SLOTS| => Load(SLOTS[i]))
  }

  /** Which operations take Lock; the others take RLock. */
  predicate Exclusive(op: Op) {
    op.ResetProgress? || op.AddWatchOverflow? || op.Snapshot?
  }

  function Perform(f: Fields, a: Access): Fields {
    match a
    case Store(slot, value) => Put(f, slot, value)
    case Increment(slot, delta) =>
      if Get(f, slot).Count? then Put(f, slot, Count(Wrap(Get(f, slot).count + delta))) else f
    case Load(_) => f
  }

  function PerformAll(f: Fields, prog: seq<Access>): Fields {
    if prog == [] then f else Perform(PerformAll(f, prog[..|prog| - 1]), prog[|prog| - 1])
  }

  /** What the documentation says of each operation, taken on its own. */
  function Apply(f: Fields, op: Op): Fields {
    match op
    case Set(slot, value) => Put(f, slot, value)
    case Add(counter, delta) => Perform(f, Increment(counter, delta))
    case ResetProgress =>
      Fields(f.jobID, f.running, f.mode, 0, 0, 0, 0, 0, 0, f.embeddedOK, 0, f.watchActive, f.watchOverflows)
    case AddWatchOverflow(burst) =>
      f.(watchActive := true, watchOverflows := Wrap(f.watchOverflows + burst))
    case Snapshot => f
  }

  /** The operations the type offers: WatchActive is only ever set. */
  predicate Offered(op: Op) {
    match op
    case Set(slot, value) => slot != WatchOverflows && (slot == WatchActive ==> value == Flag(true))
    case Add(counter, _) => counter != WatchOverflows
    case _ => true
  }

  function JobName(name: string, defaultName: string): string {
    if Strings.TrimSpace(name) == "" then defaultName else Strings.TrimSpace(name)
  }

  function NormalizeMode(name: string, lower: string -> string): string {
    if lower(Strings.TrimSpace(name)) == "full" then "full" else "incremental"
  }

  lemma GetPut(f: Fields, slot: Slot, v: Value, other: Slot)
    requires (v.Count? && Get(f, slot).Count?) || (v.Text? && Get(f, slot).Text?) || (v.Flag? && Get(f, slot).Flag?)
    ensures Get(Put(f, slot, v), other) == if other == slot then v else Get(f, other)
  {}

  /** From `f` to `g` one counter has grown by `delta`, modulo 2^64 and within 64 bits, and no other field changed. */
  ghost predicate Counted(f: Fields, g: Fields, counter: Slot, delta: int) {
    && (forall slot :: slot != counter ==> Get(g, slot) == Get(f, slot))
    && Get(f, counter).Count? && Get(g, counter).Count?
    && var now, sum := Get(g, counter).count, Get(f, counter).count + delta;
       && -0x8000_0000_0000_0000 <= now < 0x8000_0000_0000_0000 && (now - sum) % 0x1_0000_0000_0000_0000 == 0
       && (-0x8000_0000_0000_0000 <= sum < 0x8000_0000_0000_0000 ==> now == sum)
  }

  lemma IncrementCounts(f: Fields, counter: Slot, delta: int)
    requires Get(f, counter).Count?
    ensures Counted(f, Perform(f, Increment(counter, delta)), counter, delta)
  {
    var now := Count(Wrap(Get(f, counter).count + delta));
    forall slot ensures Get(Put(f, counter, now), slot) == if slot == counter then now else Get(f, slot) {
      GetPut(f, counter, now, slot);
    }
    WrapShows(Get(f, counter).count + delta);
  }

  lemma WrapShows(sum: int)
    ensures Shows(Wrap(sum), sum)
  {
    var m := 0x1_0000_0000_0000_0000;
    assert Wrap(sum) - sum == m * -((sum - Wrap(sum)) / m);
  }

  class State {
    var jobID: string
    var mode: string
    var running: bool
    var scanned: int
    var indexed: int
    var skipped: int
    var deleted: int
    var representations: int
    var chunksTotal: int
    var embeddedOK: int
    var errors: int
    var watchActive: bool
    var watchOverflows: int

    function All(): Fields
      reads this
    {
      Fields(jobID, running, mode, scanned, indexed, skipped, deleted, representations,
             chunksTotal, embeddedOK, errors, watchActive, watchOverflows)
    }

    constructor (job: string, normalizedMode: string)
      ensures All() == Fields(job, false, normalizedMode, 0, 0, 0, 0, 0, 0, 0, 0, false, 0)
    {
      jobID, mode, running := job, normalizedMode, false;
      scanned, indexed, skipped, deleted, representations := 0, 0, 0, 0, 0;
      chunksTotal, embeddedOK, errors, watchActive, watchOverflows := 0, 0, 0, false, 0;
    }

    method ResetProgress()
      modifies this
      ensures All() == Apply(old(All()), Op.ResetProgress)
      ensures scanned == 0 && indexed == 0 && skipped == 0 && deleted == 0
      ensures representations == 0 && chunksTotal == 0 && errors == 0 && embeddedOK == old(embeddedOK)
      ensures jobID == old(jobID) && running == old(running) && mode == old(mode)
      ensures watchActive == old(watchActive) && watchOverflows == old(watchOverflows)
    {
      indexed := 0;
      skipped := 0;
      deleted := 0;
      representations := 0;
      chunksTotal := 0;
      errors := 0;
      scanned := 0;
    }

    method AddWatchOverflow(delta: int)
      modifies this
      ensures All() == Apply(old(All()), Op.AddWatchOverflow(delta))
      ensures watchActive && -0x8000_0000_0000_0000 <= watchOverflows < 0x8000_0000_0000_0000
      ensures (watchOverflows - (old(watchOverflows) + delta)) % 0x1_0000_0000_0000_0000 == 0
      ensures -0x8000_0000_0000_0000 <= old(watchOverflows) + delta < 0x8000_0000_0000_0000 ==>
                watchOverflows == old(watchOverflows) + delta
    {
      watchActive := true;
      WrapShows(watchOverflows + delta);
      watchOverflows := Wrap(watchOverflows + delta);
    }

    /** SetJobID: a blank name is replaced by the default one. */
    method SetJobID(name: string, defaultName: string)
      modifies this
      ensures jobID == if Strings.TrimSpace(name) == "" then defaultName else Strings.TrimSpace(name)
      ensures All() == Apply(old(All()), Set(JobID, Text(JobName(name, defaultName))))
    {
      jobID := JobName(name, defaultName);
    }

    method SetMode(name: string, lower: string -> string)
      modifies this
      ensures mode == "full" || mode == "incremental"
      ensures mode == "full" <==> lower(Strings.TrimSpace(name)) == "full"
      ensures All() == Apply(old(All()), Set(Mode, Text(NormalizeMode(name, lower))))
    {
      mode := NormalizeMode(name, lower);
    }

    method SetRunning(flag: bool)
      modifies this
      ensures All() == Apply(old(All()), Set(Running, Flag(flag)))
    {
      running := flag;
    }

    method MarkWatchActive()
      modifies this
      ensures All() == Apply(old(All()), Set(WatchActive, Flag(true)))
    {
      watchActive := true;
    }

    /** Snapshot: a copy of every field, which changes none. */
    method Snapshot() returns (f: Fields)
      ensures All() == Apply(old(All()), Op.Snapshot) && f == old(All())
    {
      f := Fields(jobID, running, mode, scanned, indexed, skipped, deleted, representations,
                  chunksTotal, embeddedOK, errors, watchActive, watchOverflows);
    }

    /** AddScanned .. AddErrors, by the counter they add to. */
    method Increase(counter: Slot, delta: int)
      requires counter in RESET || counter == EmbeddedOK
      modifies this
      ensures All() == Apply(old(All()), Add(counter, delta))
      ensures Counted(old(All()), All(), counter, delta)
    {
      IncrementCounts(All(), counter, delta);
      match counter {
        case Scanned => scanned := Wrap(scanned + delta);
        case Indexed => indexed := Wrap(indexed + delta);
        case Skipped => skipped := Wrap(skipped + delta);
        case Deleted => deleted := Wrap(deleted + delta);
        case Representations => representations := Wrap(representations + delta);
        case ChunksTotal => chunksTotal := Wrap(chunksTotal + delta);
        case EmbeddedOK => embeddedOK := Wrap(embeddedOK + delta);
        case Errors => errors := Wrap(errors + delta);
      }
    }
  }

  /* ---- the interleaved machine ---- */

  type Tid = nat

  datatype Thread =
    | Idle
    | Called(id: nat, op: Op, start: nat)
    | Inside(id: nat, op: Op, start: nat, pc: nat, seen: map<Slot, Value>, at: nat)

  /** One entry of the linearization. */
  datatype Effect = Effect(id: nat, op: Op)

  /** A finished call: the effect lies at `at`, between the effects known at call and return. */
  datatype Call = Call(id: nat, op: Op, start: nat, at: nat, end: nat, seen: map<Slot, Value>)

  datatype Machine = Machine(
    fields: Fields, readers: set<Tid>, writer: Option<Tid>, threads: map<Tid, Thread>,
    order: seq<Effect>, done: seq<Call>, fresh_id: nat)

  datatype Step = Invoke(t: Tid, op: Op) | Acquire(t: Tid) | Touch(t: Tid) | Release(t: Tid)

  function Of(m: Machine, t: Tid): Thread {
    if t in m.threads then m.threads[t] else Idle
  }

  predicate Enabled(m: Machine, a: Step) {
    match a
    case Invoke(t, op) => Of(m, t).Idle? && Offered(op)
    case Acquire(t) =>
      Of(m, t).Called? && m.writer.None? && (Exclusive(Of(m, t).op) ==> m.readers == {})
    case Touch(t) => Of(m, t).Inside? && Of(m, t).pc < |Program(Of(m, t).op)|
    case Release(t) => Of(m, t).Inside? && Of(m, t).pc == |Program(Of(m, t).op)|
  }

  function Do(m: Machine, a: Step): Machine
    requires Enabled(m, a)
  {
    var th := Of(m, a.t);
    match a
    case Invoke(t, op) =>
      m.(threads := m.threads[t := Called(m.fresh_id, op, |m.order|)], fresh_id := m.fresh_id + 1)
    case Acquire(t) =>
      m.(threads := m.threads[t := Inside(th.id, th.op, th.start, 0, map[], |m.order|)],
         writer := if Exclusive(th.op) then Some(t) else None,
         readers := if Exclusive(th.op) then m.readers else m.readers + {t})
    case Touch(t) =>
      var access := Program(th.op)[th.pc];
      var seen := if access.Load? then th.seen[access.slot := Get(m.fields, access.slot)] else th.seen;
      // a shared operation takes effect at its one access
      m.(fields := Perform(m.fields, access),
         order := if Exclusive(th.op) then m.order else m.order + [Effect(th.id, th.op)],
         threads := m.threads[t := th.(pc := th.pc + 1, seen := seen, at := |m.order|)])
    case Release(t) =>
      // an exclusive operation takes effect when it lets the lock go
      var order := if Exclusive(th.op) then m.order + [Effect(th.id, th.op)] else m.order;
      var at := if Exclusive(th.op) then |m.order| else th.at;
      m.(threads := m.threads[t := Idle], order := order,
         writer := if Exclusive(th.op) then None else m.writer,
         readers := m.readers - {t},
         done := m.done + [Call(th.id, th.op, th.start, at, |order|, th.seen)])
  }

  /* ---- the sequential meaning of the order of effects ---- */

  function Fold(f: Fields, order: seq<Effect>): Fields {
    if order == [] then f else Apply(Fold(f, order[..|order| - 1]), order[|order| - 1].op)
  }

  lemma FoldAppend(f: Fields, order: seq<Effect>, e: Effect)
    ensures Fold(f, order + [e]) == Apply(Fold(f, order), e.op)
  {
    assert (order + [e])[..|order + [e]| - 1] == order;
  }

  lemma {:induction false} LoadsChangeNothing(f: Fields, k: nat)
    requires k <= |SLOTS|
    ensures PerformAll(f, Program(Snapshot)[..k]) == f
  {
    if k > 0 {
      LoadsChangeNothing(f, k - 1);
      assert Program(Snapshot)[..k][..k - 1] == Program(Snapshot)[..k - 1];
    }
  }

  lemma PerformNext(f: Fields, prog: seq<Access>, k: nat)
    requires k < |prog|
    ensures PerformAll(f, prog[..k + 1]) == Perform(PerformAll(f, prog[..k]), prog[k])
  {
    assert prog[..k + 1][..k] == prog[..k];
  }

  lemma SameFields(f: Fields, g: Fields)
    requires forall slot :: Get(f, slot) == Get(g, slot)
    ensures f == g
  {
    assert forall slot: Slot :: Get(f, slot) == Get(g, slot);
    assert Get(f, JobID) == Get(g, JobID) && Get(f, Running) == Get(g, Running) && Get(f, Mode) == Get(g, Mode);
    assert Get(f, Scanned) == Get(g, Scanned) && Get(f, Indexed) == Get(g, Indexed);
    assert Get(f, Skipped) == Get(g, Skipped) && Get(f, Deleted) == Get(g, Deleted);
    assert Get(f, Representations) == Get(g, Representations) && Get(f, ChunksTotal) == Get(g, ChunksTotal);
    assert Get(f, EmbeddedOK) == Get(g, EmbeddedOK) && Get(f, Errors) == Get(g, Errors);
    assert Get(f, WatchActive) == Get(g, WatchActive) && Get(f, WatchOverflows) == Get(g, WatchOverflows);
  }

  lemma ResetNext(f: Fields, k: nat, slot: Slot)
    requires k < |RESET|
    ensures Get(PerformAll(f, Program(ResetProgress)[..k + 1]), slot) ==
            if slot == RESET[k] then Count(0) else Get(PerformAll(f, Program(ResetProgress)[..k]), slot)
    ensures slot in RESET[..k + 1] <==> slot in RESET[..k] || slot == RESET[k]
  {
    var g := PerformAll(f, Program(ResetProgress)[..k]);
    PerformNext(f, Program(ResetProgress), k);
    GetPut(g, RESET[k], Count(0), slot);
    assert RESET[..k + 1] == RESET[..k] + [RESET[k]];
  }

  /** A partly done reset: the counters reached so far are zero, everything else is as before. */
  lemma {:induction false} PartialReset(f: Fields, k: nat, slot: Slot)
    requires k <= |RESET|
    ensures Get(PerformAll(f, Program(ResetProgress)[..k]), slot) ==
            if slot in RESET[..k] then Count(0) else Get(f, slot)
  {
    if k > 0 {
      PartialReset(f, k - 1, slot);
      PartialReset(f, k - 1, RESET[k - 1]);
      ResetNext(f, k - 1, slot);
    }
  }

  lemma ResetMeansApply(f: Fields)
    ensures PerformAll(f, Program(ResetProgress)) == Apply(f, ResetProgress)
  {
    assert Program(ResetProgress)[..|RESET|] == Program(ResetProgress) && RESET[..|RESET|] == RESET;
    forall slot ensures Get(PerformAll(f, Program(ResetProgress)), slot) == Get(Apply(f, ResetProgress), slot) {
      PartialReset(f, |RESET|, slot);
    }
    SameFields(PerformAll(f, Program(ResetProgress)), Apply(f, ResetProgress));
  }

  /** The accesses of a method body add up to the documented meaning of the operation. */
  lemma ProgramMeansApply(f: Fields, op: Op)
    ensures PerformAll(f, Program(op)) == Apply(f, op)
  {
    var prog := Program(op);
    match op {
      case Snapshot =>
        assert prog[..|SLOTS|] == prog;
        LoadsChangeNothing(f, |SLOTS|);
      case ResetProgress => ResetMeansApply(f);
      case AddWatchOverflow(_) =>
        assert prog[..0] == [] && prog[..2] == prog;
        PerformNext(f, prog, 0);
        PerformNext(f, prog, 1);
      case _ =>
        assert prog[..0] == [] && prog[..1] == prog;
        PerformNext(f, prog, 0);
    }
  }

  /* ---- the invariant ---- */

  ghost predicate NotIn(id: nat, order: seq<Effect>) {
    forall i :: 0 <= i < |order| ==> order[i].id != id
  }

  /** What a snapshot saw of the slots it loaded first. */
  ghost predicate Saw(seen: map<Slot, Value>, f: Fields, k: nat)
    requires k <= |SLOTS|
  {
    forall i :: 0 <= i < k ==> SLOTS[i] in seen && seen[SLOTS[i]] == Get(f, SLOTS[i])
  }

  ghost predicate ThreadOk(m: Machine, f: Fields, t: Tid) {
    match Of(m, t)
    case Idle => t !in m.readers && m.writer != Some(t)
    case Called(id, op, start) =>
      && t !in m.readers && m.writer != Some(t)
      && Offered(op) && id < m.fresh_id && start <= |m.order| && NotIn(id, m.order)
    case Inside(id, op, start, pc, seen, at) =>
      && Offered(op) && id < m.fresh_id && start <= |m.order| && pc <= |Program(op)|
      && (Exclusive(op) <==> m.writer == Some(t)) && (!Exclusive(op) <==> t in m.readers)
      && (if Exclusive(op) || pc == 0 then NotIn(id, m.order)
          else start <= at < |m.order| && m.order[at] == Effect(id, op))
      && (Exclusive(op) ==> m.fields == PerformAll(Fold(f, m.order), Program(op)[..pc]))
      && (op.Snapshot? ==> Saw(seen, Fold(f, m.order), pc))
  }

  ghost predicate CallOk(m: Machine, f: Fields, c: Call) {
    && c.start <= c.at < c.end <= |m.order| && m.order[c.at] == Effect(c.id, c.op)
    && (c.op.Snapshot? ==> Saw(c.seen, Fold(f, m.order[..c.at]), |SLOTS|))
  }

  ghost predicate Apart(m: Machine, t: Tid, u: Tid) {
    t != u && !Of(m, t).Idle? && !Of(m, u).Idle? ==> Of(m, t).id != Of(m, u).id
  }

  ghost predicate Inv(m: Machine, f: Fields) {
    && (m.writer.Some? ==> m.readers == {})
    && (m.writer.None? ==> m.fields == Fold(f, m.order))
    && (forall t :: ThreadOk(m, f, t))
    && (forall t, u :: Apart(m, t, u))
    && (forall i :: 0 <= i < |m.order| ==> m.order[i].id < m.fresh_id && Offered(m.order[i].op))
    && (forall i, j :: 0 <= i < j < |m.order| ==> m.order[i].id != m.order[j].id)
    && (forall c :: c in m.done ==> CallOk(m, f, c))
  }

  lemma InvokeKeepsInv(m: Machine, f: Fields, a: Step)
    requires Inv(m, f) && Enabled(m, a) && a.Invoke?
    ensures Inv(Do(m, a), f)
  {
    var m' := Do(m, a);
    forall t ensures ThreadOk(m', f, t) {
      assert ThreadOk(m, f, t) && Apart(m, t, a.t);
    }
    forall t, u ensures Apart(m', t, u) {
      assert Apart(m, t, u) && ThreadOk(m, f, t) && ThreadOk(m, f, u);
    }
    forall c | c in m'.done ensures CallOk(m', f, c) {
      assert CallOk(m, f, c);
    }
  }

  lemma AcquireKeepsInv(m: Machine, f: Fields, a: Step)
    requires Inv(m, f) && Enabled(m, a) && a.Acquire?
    ensures Inv(Do(m, a), f)
  {
    var m' := Do(m, a);
    var op := Of(m, a.t).op;
    assert ThreadOk(m, f, a.t);
    assert Program(op)[..0] == [];
    forall t ensures ThreadOk(m', f, t) {
      assert ThreadOk(m, f, t) && Apart(m, t, a.t);
    }
    forall t, u ensures Apart(m', t, u) {
      assert Apart(m, t, u) && ThreadOk(m, f, t) && ThreadOk(m, f, u);
    }
    forall c | c in m'.done ensures CallOk(m', f, c) {
      assert CallOk(m, f, c);
    }
  }

  lemma SharedTouchKeepsInv(m: Machine, f: Fields, a: Step)
    requires Inv(m, f) && Enabled(m, a) && a.Touch? && !Exclusive(Of(m, a.t).op)
    ensures Inv(Do(m, a), f)
  {
    var m' := Do(m, a);
    var th := Of(m, a.t);
    var e := Effect(th.id, th.op);
    assert ThreadOk(m, f, a.t);
    assert th.pc == 0 && m.writer.None?;
    FoldAppend(f, m.order, e);
    forall t ensures ThreadOk(m', f, t) {
      assert ThreadOk(m, f, t) && Apart(m, t, a.t);
    }
    forall t, u ensures Apart(m', t, u) {
      assert Apart(m, t, u) && ThreadOk(m, f, t) && ThreadOk(m, f, u);
    }
    forall c | c in m'.done ensures CallOk(m', f, c) {
      assert CallOk(m, f, c);
      assert m'.order[..c.at] == m.order[..c.at];
    }
  }

  lemma ExclusiveTouchKeepsInv(m: Machine, f: Fields, a: Step)
    requires Inv(m, f) && Enabled(m, a) && a.Touch? && Exclusive(Of(m, a.t).op)
    ensures Inv(Do(m, a), f)
  {
    var m' := Do(m, a);
    var th := Of(m, a.t);
    assert ThreadOk(m, f, a.t) && m.writer == Some(a.t);
    forall t ensures ThreadOk(m', f, t) {
      if t == a.t {
        TouchingThreadStaysOk(m, f, a);
      } else {
        assert ThreadOk(m, f, t) && Of(m', t) == Of(m, t);
      }
    }
    forall t, u ensures Apart(m', t, u) {
      assert Apart(m, t, u) && ThreadOk(m, f, t) && ThreadOk(m, f, u);
    }
    forall c | c in m'.done ensures CallOk(m', f, c) {
      assert CallOk(m, f, c);
    }
  }

  lemma TouchingThreadStaysOk(m: Machine, f: Fields, a: Step)
    requires ThreadOk(m, f, a.t) && Enabled(m, a) && a.Touch? && Exclusive(Of(m, a.t).op)
    ensures ThreadOk(Do(m, a), f, a.t)
  {
    var th := Of(m, a.t);
    PerformNext(Fold(f, m.order), Program(th.op), th.pc);
    if th.op.Snapshot? {
      LoadsChangeNothing(Fold(f, m.order), th.pc);
      assert Program(th.op)[th.pc] == Load(SLOTS[th.pc]);
    }
  }

  lemma ReleaseKeepsInv(m: Machine, f: Fields, a: Step)
    requires Inv(m, f) && Enabled(m, a) && a.Release?
    ensures Inv(Do(m, a), f)
  {
    var m' := Do(m, a);
    var th := Of(m, a.t);
    assert ThreadOk(m, f, a.t);
    if Exclusive(th.op) {
      assert Program(th.op)[..th.pc] == Program(th.op);
      ProgramMeansApply(Fold(f, m.order), th.op);
      FoldAppend(f, m.order, Effect(th.id, th.op));
    }
    forall t ensures ThreadOk(m', f, t) {
      assert ThreadOk(m, f, t) && Apart(m, t, a.t);
    }
    forall t, u ensures Apart(m', t, u) {
      assert Apart(m, t, u) && ThreadOk(m, f, t) && ThreadOk(m, f, u);
    }
    assert m'.order[..|m.order|] == m.order;
    forall c | c in m'.done ensures CallOk(m', f, c) {
      if c in m.done {
        assert CallOk(m, f, c);
        assert m'.order[..c.at] == m.order[..c.at];
      }
    }
  }

  lemma StepKeepsInv(m: Machine, f: Fields, a: Step)
    requires Inv(m, f) && Enabled(m, a)
    ensures Inv(Do(m, a), f)
  {
    match a {
      case Invoke(_, _) => InvokeKeepsInv(m, f, a);
      case Acquire(_) => AcquireKeepsInv(m, f, a);
      case Touch(t) =>
        if Exclusive(Of(m, t).op) {
          ExclusiveTouchKeepsInv(m, f, a);
        } else {
          SharedTouchKeepsInv(m, f, a);
        }
      case Release(_) => ReleaseKeepsInv(m, f, a);
    }
  }

  /* ---- theorems over every execution ---- */

  ghost predicate NextAt(hist: seq<Machine>, steps: seq<Step>, k: nat)
    requires k < |steps| && |hist| == |steps| + 1
  {
    Enabled(hist[k], steps[k]) && hist[k + 1] == Do(hist[k], steps[k])
  }

  ghost predicate Execution(hist: seq<Machine>, steps: seq<Step>, f: Fields) {
    && |hist| == |steps| + 1
    && hist[0] == Machine(f, {}, None, map[], [], [], 0)
    && forall k :: 0 <= k < |steps| ==> NextAt(hist, steps, k)
  }

  lemma {:induction false} InvThroughout(hist: seq<Machine>, steps: seq<Step>, f: Fields, k: nat)
    requires Execution(hist, steps, f) && k < |hist|
    ensures Inv(hist[k], f)
  {
    if k == 0 {
      assert forall t :: ThreadOk(hist[0], f, t);
      assert forall t, u :: Apart(hist[0], t, u);
    } else {
      InvThroughout(hist, steps, f, k - 1);
      assert NextAt(hist, steps, k - 1);
      StepKeepsInv(hist[k - 1], f, steps[k - 1]);
    }
  }

  /**
   Linearizability: every returned call has exactly one effect, placed between its call and
   its return, and a snapshot holds the fields as the whole operations before it left them.
   */
  lemma EverySnapshotIsLinearized(hist: seq<Machine>, steps: seq<Step>, f: Fields, k: nat, c: Call)
    requires Execution(hist, steps, f) && k < |hist| && c in hist[k].done
    ensures c.start <= c.at < c.end <= |hist[k].order|
    ensures forall i :: 0 <= i < |hist[k].order| ==> (hist[k].order[i].id == c.id <==> i == c.at)
    ensures hist[k].order[c.at].op == c.op
    ensures c.op.Snapshot? ==>
              forall slot :: slot in c.seen && c.seen[slot] == Get(Fold(f, hist[k].order[..c.at]), slot)
  {
    InvThroughout(hist, steps, f, k);
    assert CallOk(hist[k], f, c);
    if c.op.Snapshot? {
      forall slot ensures slot in c.seen && c.seen[slot] == Get(Fold(f, hist[k].order[..c.at]), slot) {
        var i := LoadedAt(slot);
        assert SLOTS[i] == slot;
      }
    }
  }

  function LoadedAt(slot: Slot): (i: nat)
    ensures i < |SLOTS| && SLOTS[i] == slot
  {
    match slot
    case JobID => 0
    case Running => 1
    case Mode => 2
    case Scanned => 3
    case Indexed => 4
    case Skipped => 5
    case Deleted => 6
    case Representations => 7
    case ChunksTotal => 8
    case EmbeddedOK => 9
    case Errors => 10
    case WatchActive => 11
    case WatchOverflows => 12
  }

  /** The order of effects at the start of every call made from state `k` on. */
  ghost predicate StartsAfter(m: Machine, id: nat, len: nat) {
    && len <= |m.order| && id <= m.fresh_id
    && (forall t :: !Of(m, t).Idle? && Of(m, t).id >= id ==> len <= Of(m, t).start)
    && (forall c :: c in m.done && c.id >= id ==> len <= c.start)
  }

  lemma {:induction false} LaterCallsStartLater(hist: seq<Machine>, steps: seq<Step>, f: Fields, k: nat, l: nat)
    requires Execution(hist, steps, f) && k <= l < |hist|
    ensures StartsAfter(hist[l], hist[k].fresh_id, |hist[k].order|)
    decreases l
  {
    InvThroughout(hist, steps, f, k);
    if l == k {
      forall t | !Of(hist[k], t).Idle? ensures Of(hist[k], t).id < hist[k].fresh_id {
        assert ThreadOk(hist[k], f, t);
      }
      forall c | c in hist[k].done ensures c.id < hist[k].fresh_id {
        assert CallOk(hist[k], f, c);
      }
    } else {
      LaterCallsStartLater(hist, steps, f, k, l - 1);
      assert NextAt(hist, steps, l - 1);
      var m, m' := hist[l - 1], hist[l];
      forall t | !Of(m', t).Idle? && Of(m', t).id >= hist[k].fresh_id ensures |hist[k].order| <= Of(m', t).start {
        assert t != steps[l - 1].t ==> Of(m', t) == Of(m, t);
      }
    }
  }

  /** A call that returned before another was made takes effect before it. */
  lemma EffectsKeepRealTimeOrder(hist: seq<Machine>, steps: seq<Step>, f: Fields, k: nat, l: nat, a: Call, b: Call)
    requires Execution(hist, steps, f) && k <= l < |hist|
    requires a in hist[k].done && b in hist[l].done && b.id >= hist[k].fresh_id
    ensures a.at < b.at
  {
    EverySnapshotIsLinearized(hist, steps, f, k, a);
    EverySnapshotIsLinearized(hist, steps, f, l, b);
    LaterCallsStartLater(hist, steps, f, k, l);
  }

  lemma {:induction false} OverflowsMeanActive(f: Fields, order: seq<Effect>)
    requires f.watchOverflows == 0
    requires forall i :: 0 <= i < |order| ==> Offered(order[i].op)
    ensures Fold(f, order).watchOverflows != 0 ==> Fold(f, order).watchActive
  {
    if order != [] {
      OverflowsMeanActive(f, order[..|order| - 1]);
      assert Offered(order[|order| - 1].op);
    }
  }

  /** No snapshot shows an overflow tally of a watcher that is not active. */
  lemma SnapshotOverflowsMeanActive(hist: seq<Machine>, steps: seq<Step>, f: Fields, k: nat, c: Call)
    requires Execution(hist, steps, f) && k < |hist| && c in hist[k].done && c.op.Snapshot?
    requires f.watchOverflows == 0
    ensures WatchOverflows in c.seen && WatchActive in c.seen
    ensures c.seen[WatchOverflows] != Count(0) ==> c.seen[WatchActive] == Flag(true)
  {
    InvThroughout(hist, steps, f, k);
    EverySnapshotIsLinearized(hist, steps, f, k, c);
    OverflowsMeanActive(f, hist[k].order[..c.at]);
  }

  /* ---- one call alone ---- */

  /** A call on its own, inside its lock with `pc` accesses done. */
  function Midway(f: Fields, t: Tid, op: Op, pc: nat): Machine
    requires pc <= |Program(op)|
  {
    var shared := pc > 0 && !Exclusive(op);
    Machine(PerformAll(f, Program(op)[..pc]), if Exclusive(op) then {} else {t},
            if Exclusive(op) then Some(t) else None,
            map[t := Inside(0, op, 0, pc, SeenBy(f, op, pc), 0)], if shared then [Effect(0, op)] else [], [], 1)
  }

  function Loaded(op: Op, pc: nat): set<Slot>
    requires pc <= |Program(op)|
  {
    set i | 0 <= i < pc && Program(op)[i].Load? :: Program(op)[i].slot
  }

  function SeenBy(f: Fields, op: Op, pc: nat): map<Slot, Value>
    requires pc <= |Program(op)|
  {
    map slot | slot in Loaded(op, pc) :: Get(f, slot)
  }

  lemma SeenNext(f: Fields, op: Op, pc: nat)
    requires pc < |Program(op)|
    ensures var a := Program(op)[pc];
            SeenBy(f, op, pc + 1) == if a.Load? then SeenBy(f, op, pc)[a.slot := Get(f, a.slot)] else SeenBy(f, op, pc)
  {
    assert Loaded(op, pc + 1) == Loaded(op, pc) + if Program(op)[pc].Load? then {Program(op)[pc].slot} else {};
  }

  lemma NextTouch(f: Fields, t: Tid, op: Op, pc: nat)
    requires pc < |Program(op)| && (!Exclusive(op) ==> |Program(op)| == 1)
    requires op.Snapshot? ==> PerformAll(f, Program(op)[..pc]) == f
    ensures var m := Midway(f, t, op, pc); Enabled(m, Touch(t)) && Do(m, Touch(t)) == Midway(f, t, op, pc + 1)
  {
    PerformNext(f, Program(op), pc);
    SeenNext(f, op, pc);
    assert Program(op)[pc].Load? ==> op.Snapshot?;
    var inside := Inside(0, op, 0, pc, SeenBy(f, op, pc), 0);
    assert map[t := inside][t := inside.(pc := pc + 1, seen := SeenBy(f, op, pc + 1))]
        == map[t := inside.(pc := pc + 1, seen := SeenBy(f, op, pc + 1))];
  }

  lemma OneMoreStep(hist: seq<Machine>, steps: seq<Step>, f: Fields, a: Step)
    requires Execution(hist, steps, f) && Enabled(hist[|steps|], a)
    ensures Execution(hist + [Do(hist[|steps|], a)], steps + [a], f)
  {
    var more, longer := hist + [Do(hist[|steps|], a)], steps + [a];
    forall k | 0 <= k < |longer| ensures NextAt(more, longer, k) {
      if k < |steps| {
        assert NextAt(hist, steps, k);
      }
    }
  }

  /** The lock is taken: from nobody inside to the first access. */
  lemma LoneCallEnters(f: Fields, t: Tid, op: Op) returns (hist: seq<Machine>, steps: seq<Step>)
    requires Offered(op)
    ensures Execution(hist, steps, f) && hist[|steps|] == Midway(f, t, op, 0)
  {
    var m := Machine(f, {}, None, map[], [], [], 0);
    hist, steps := [m], [];
    OneMoreStep(hist, steps, f, Invoke(t, op));
    var n := Do(m, Invoke(t, op));
    hist, steps := hist + [n], steps + [Invoke(t, op)];
    OneMoreStep(hist, steps, f, Acquire(t));
    hist, steps := hist + [Do(n, Acquire(t))], steps + [Acquire(t)];
    assert Program(op)[..0] == [] && Loaded(op, 0) == {} && {} + {t} == {t};
  }

  lemma SharedHasOneAccess(op: Op)
    ensures !Exclusive(op) ==> |Program(op)| == 1
  {}

  lemma {:induction false} LoneCallTouches(f: Fields, t: Tid, op: Op, pc: nat)
    returns (hist: seq<Machine>, steps: seq<Step>)
    requires Offered(op) && pc <= |Program(op)|
    ensures Execution(hist, steps, f) && hist[|steps|] == Midway(f, t, op, pc)
  {
    if pc == 0 {
      hist, steps := LoneCallEnters(f, t, op);
    } else {
      hist, steps := LoneCallTouches(f, t, op, pc - 1);
      SharedHasOneAccess(op);
      if op.Snapshot? {
        LoadsChangeNothing(f, pc - 1);
      }
      NextTouch(f, t, op, pc - 1);
      OneMoreStep(hist, steps, f, Touch(t));
      hist, steps := hist + [Do(hist[|steps|], Touch(t))], steps + [Touch(t)];
    }
  }

  /** Every operation the type offers can be called and returns, and alone it does what it is documented to. */
  lemma LoneCallReturns(f: Fields, t: Tid, op: Op) returns (hist: seq<Machine>, steps: seq<Step>)
    requires match op
             case Set(slot, value) => slot in {JobID, Running, Mode} || op == Set(WatchActive, Flag(true))
             case Add(counter, _) => counter != WatchOverflows
             case _ => true
    ensures Execution(hist, steps, f)
    ensures var m := hist[|steps|];
            m.fields == Apply(f, op) && m.readers == {} && m.writer.None? && |m.done| == 1 && m.done[0].op == op
  {
    var n := |Program(op)|;
    hist, steps := LoneCallTouches(f, t, op, n);
    var m := hist[|steps|];
    assert Program(op)[..n] == Program(op);
    ProgramMeansApply(f, op);
    OneMoreStep(hist, steps, f, Release(t));
    hist, steps := hist + [Do(m, Release(t))], steps + [Release(t)];
    assert {t} - {t} == {};
  }

  /* ---- what the counters of a snapshot count ---- */

  /** What an operation adds to a counter. */
  function Delta(op: Op, counter: Slot): int {
    match op
    case Add(c, delta) => if c == counter then delta else 0
    case AddWatchOverflow(burst) => if counter == WatchOverflows then burst else 0
    case _ => 0
  }

  function Sum(order: seq<Effect>, counter: Slot): int {
    if order == [] then 0 else Sum(order[..|order| - 1], counter) + Delta(order[|order| - 1].op, counter)
  }

  /** None of the effects stores into the counter: no reset of it, and no other store. */
  predicate Undisturbed(order: seq<Effect>, counter: Slot) {
    forall i :: 0 <= i < |order| ==>
      && (order[i].op.ResetProgress? ==> counter !in RESET)
      && (order[i].op.Set? ==> order[i].op.slot != counter)
  }

  lemma OneEffectCounts(f: Fields, op: Op, counter: Slot)
    requires Get(f, counter).Count? && Fits(Get(f, counter).count)
    requires (op.ResetProgress? ==> counter !in RESET) && (op.Set? ==> op.slot != counter)
    ensures var now := Get(Apply(f, op), counter);
            now.Count? && Shows(now.count, Get(f, counter).count + Delta(op, counter))
  {
    match op {
      case Add(c, delta) =>
        if Get(f, c).Count? {
          IncrementCounts(f, c, delta);
        }
      case AddWatchOverflow(burst) => OverflowCounts(f, burst, counter);
      case Set(slot, value) => SetKeepsOthers(f, slot, value, counter);
      case ResetProgress => ResetKeepsOthers(f, counter);
      case Snapshot =>
    }
  }

  lemma OverflowCounts(f: Fields, burst: int, counter: Slot)
    requires Get(f, counter).Count? && Fits(Get(f, counter).count)
    ensures var now := Get(Apply(f, AddWatchOverflow(burst)), counter);
            now.Count? && Shows(now.count, Get(f, counter).count + Delta(AddWatchOverflow(burst), counter))
  {
    WrapShows(f.watchOverflows + burst);
  }

  lemma SetKeepsOthers(f: Fields, slot: Slot, value: Value, other: Slot)
    requires other != slot
    ensures Get(Put(f, slot, value), other) == Get(f, other)
  {}

  lemma ResetKeepsOthers(f: Fields, other: Slot)
    requires other !in RESET
    ensures Get(Apply(f, ResetProgress), other) == Get(f, other)
  {
    assert RESET[0] == Indexed && RESET[1] == Skipped && RESET[2] == Deleted && RESET[3] == Representations;
    assert RESET[4] == ChunksTotal && RESET[5] == Errors && RESET[6] == Scanned;
  }

  /** Effects that do not store into a counter leave it at its start value plus the sum of their deltas. */
  lemma {:induction false} FoldCounts(f: Fields, order: seq<Effect>, counter: Slot)
    requires Get(f, counter).Count? && Fits(Get(f, counter).count) && Undisturbed(order, counter)
    ensures Get(Fold(f, order), counter).Count?
    ensures Shows(Get(Fold(f, order), counter).count, Get(f, counter).count + Sum(order, counter))
  {
    if order != [] {
      var init, last := order[..|order| - 1], order[|order| - 1];
      assert Undisturbed(init, counter);
      FoldCounts(f, init, counter);
      OneEffectAdds(Fold(f, init), last.op, counter, Get(f, counter).count + Sum(init, counter));
    }
  }

  lemma OneEffectAdds(f: Fields, op: Op, counter: Slot, sum: int)
    requires Get(f, counter).Count? && Shows(Get(f, counter).count, sum)
    requires (op.ResetProgress? ==> counter !in RESET) && (op.Set? ==> op.slot != counter)
    ensures var now := Get(Apply(f, op), counter); now.Count? && Shows(now.count, sum + Delta(op, counter))
  {
    OneEffectCounts(f, op, counter);
    ShowsAdds(Get(f, counter).count, sum, Delta(op, counter), Get(Apply(f, op), counter).count);
  }

  lemma ShowsAdds(was: int, sum: int, delta: int, now: int)
    requires Shows(was, sum) && Shows(now, was + delta)
    ensures Shows(now, sum + delta)
  {
    var m := 0x1_0000_0000_0000_0000;
    var a, b := (was - sum) / m, (now - (was + delta)) / m;
    assert now - (sum + delta) == m * (a + b);
  }

  lemma {:induction false} FoldSplits(f: Fields, a: seq<Effect>, b: seq<Effect>)
    ensures Fold(f, a + b) == Fold(Fold(f, a), b)
    decreases |b|
  {
    if b == [] {
      assert a + b == a;
    } else {
      assert (a + b)[..|a + b| - 1] == a + b[..|b| - 1];
      FoldSplits(f, a, b[..|b| - 1]);
    }
  }

  /**
   A snapshot shows for each counter what it was at any earlier point of the order of effects
   plus the sum of what was added since, modulo 2^64, as long as nothing was stored into it
   since; where that sum fits 64 bits it shows the sum itself.
   */
  lemma SnapshotShowsTheSum(hist: seq<Machine>, steps: seq<Step>, f: Fields, k: nat, c: Call, from: nat, counter: Slot)
    requires Execution(hist, steps, f) && k < |hist| && c in hist[k].done && c.op.Snapshot?
    requires from <= c.at <= |hist[k].order| && Undisturbed(hist[k].order[from..c.at], counter)
    requires var start := Get(Fold(f, hist[k].order[..from]), counter);
             start.Count? && -0x8000_0000_0000_0000 <= start.count < 0x8000_0000_0000_0000
    ensures counter in c.seen && c.seen[counter].Count?
    ensures var now := c.seen[counter].count;
            var sum := Get(Fold(f, hist[k].order[..from]), counter).count + Sum(hist[k].order[from..c.at], counter);
            && (now - sum) % 0x1_0000_0000_0000_0000 == 0
            && (-0x8000_0000_0000_0000 <= sum < 0x8000_0000_0000_0000 ==> now == sum)
  {
    var before, since := hist[k].order[..from], hist[k].order[from..c.at];
    SnapshotFolds(hist, steps, f, k, c, from, counter);
    FoldCounts(Fold(f, before), since, counter);
    var sum := Get(Fold(f, before), counter).count + Sum(since, counter);
    if Fits(sum) {
      ShowsIsExact(c.seen[counter].count, sum);
    }
  }

  lemma SnapshotFolds(hist: seq<Machine>, steps: seq<Step>, f: Fields, k: nat, c: Call, from: nat, slot: Slot)
    requires Execution(hist, steps, f) && k < |hist| && c in hist[k].done && c.op.Snapshot?
    requires from <= c.at <= |hist[k].order|
    ensures slot in c.seen
    ensures c.seen[slot] == Get(Fold(Fold(f, hist[k].order[..from]), hist[k].order[from..c.at]), slot)
  {
    EverySnapshotIsLinearized(hist, steps, f, k, c);
    var before, since := hist[k].order[..from], hist[k].order[from..c.at];
    assert hist[k].order[..c.at] == before + since;
    FoldSplits(f, before, since);
  }

  /** A snapshot that follows a reset directly sees all seven counters at zero, never some of them. */
  lemma ResetIsAllOrNothing(hist: seq<Machine>, steps: seq<Step>, f: Fields, k: nat, c: Call)
    requires Execution(hist, steps, f) && k < |hist| && c in hist[k].done && c.op.Snapshot?
    requires 0 < c.at <= |hist[k].order| && hist[k].order[c.at - 1].op == ResetProgress
    ensures forall slot :: slot in {Scanned, Indexed, Skipped, Deleted, Representations, ChunksTotal, Errors} ==>
              slot in c.seen && c.seen[slot] == Count(0)
  {
    EverySnapshotIsLinearized(hist, steps, f, k, c);
    var before := hist[k].order[..c.at];
    assert before[|before| - 1] == hist[k].order[c.at - 1];
  }
}
