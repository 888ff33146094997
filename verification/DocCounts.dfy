/**
 The two paged loops that count a corpus's documents. The list is fixed while it is read;
 how many documents each page holds, and whether a read fails, is up to the store. `lower`
 is the case folding of a status.
 */
module DocCounts {
  import opened Prelude
  import opened Text

  datatype Doc = Doc(docType: string, status: string, deleted: bool)

  /** A store's answers: the size of the page at each offset (at most the 500 asked for). */
  datatype Store = Store(docs: seq<Doc>, size: nat -> nat, fails: nat -> bool)

  const PAGE_SIZE: nat := 500

  function Least(a: nat, b: nat): nat { if a < b then a else b }

  function PageEnd(st: Store, offset: nat): (n: nat)
    requires offset <= |st.docs|
    ensures offset <= n <= |st.docs| && n - offset <= st.size(offset) && n - offset <= 500
    ensures n == |st.docs| || n - offset == st.size(offset) || n - offset == 500
  {
    offset + Least(Least(st.size(offset), PAGE_SIZE), |st.docs| - offset)
  }

  /** Where a paged loop stops, if no read on the way fails. */
  function Reach(st: Store, offset: nat): (end: Option<nat>)
    requires offset <= |st.docs|
    ensures end.Some? ==> offset <= end.value <= |st.docs|
    decreases |st.docs| - offset
  {
    if st.fails(offset) then None
    else
      var next := PageEnd(st, offset);
      if next == offset || next >= |st.docs| then Some(next) else Reach(st, next)
  }

  /** The page at the `i`-th offset is read, holds something and is not the last one. */
  ghost predicate Follows(st: Store, offsets: seq<nat>, i: nat)
    requires i < |offsets| - 1 && forall k :: 0 <= k < |offsets| ==> offsets[k] <= |st.docs|
  {
    && !st.fails(offsets[i]) && PageEnd(st, offsets[i]) == offsets[i + 1]
    && offsets[i] < offsets[i + 1] < |st.docs|
  }

  /**
   Where a loop stops: it takes page after page as long as none is empty, none fails and
   documents remain; if the last of them fails it stops without a result, and otherwise
   behind that page.
   */
  lemma {:induction false} ReachIsTheLastPage(st: Store, offset: nat) returns (offsets: seq<nat>)
    requires offset <= |st.docs|
    ensures offsets != [] && offsets[0] == offset && forall i :: 0 <= i < |offsets| ==> offsets[i] <= |st.docs|
    ensures forall i :: 0 <= i < |offsets| - 1 ==> Follows(st, offsets, i)
    ensures var last := offsets[|offsets| - 1];
            && (Reach(st, offset).None? <==> st.fails(last))
            && (Reach(st, offset).Some? ==>
                  Reach(st, offset).value == PageEnd(st, last)
                  && (PageEnd(st, last) == last || PageEnd(st, last) == |st.docs|))
    decreases |st.docs| - offset
  {
    var next := PageEnd(st, offset);
    if st.fails(offset) || next == offset || next >= |st.docs| {
      offsets := [offset];
    } else {
      var more := ReachIsTheLastPage(st, next);
      offsets := [offset] + more;
      forall i | 0 <= i < |offsets| - 1 ensures Follows(st, offsets, i) {
        if i > 0 {
          assert Follows(st, more, i - 1);
        }
      }
    }
  }

  /** A store whose pages before the end are never empty and never fail is read to the end. */
  lemma {:induction false} NonemptyPagesReachTheEnd(st: Store, offset: nat)
    requires offset <= |st.docs|
    requires forall o: nat :: o <= |st.docs| ==> !st.fails(o) && (o < |st.docs| ==> st.size(o) > 0)
    ensures Reach(st, offset) == Some(|st.docs|)
    decreases |st.docs| - offset
  {
    var next := PageEnd(st, offset);
    if offset < next < |st.docs| {
      NonemptyPagesReachTheEnd(st, next);
    }
  }

  /** A loop that succeeds short of the end was given an empty page there. */
  lemma {:induction false} ShortReadMeansEmptyPage(st: Store, offset: nat)
    requires offset <= |st.docs| && Reach(st, offset).Some? && Reach(st, offset).value < |st.docs|
    ensures st.size(Reach(st, offset).value) == 0
    decreases |st.docs| - offset
  {
    var next := PageEnd(st, offset);
    if offset < next {
      ShortReadMeansEmptyPage(st, next);
    }
  }

  /* ---- what is counted ---- */

  datatype Kind = Indexed | Skipped | Failed | Odd

  function KindOf(d: Doc, lower: string -> string): Kind {
    var status := lower(TrimSpace(d.status));
    if status == "indexed" || status == "ok" then Indexed
    else if status == "skipped" then Skipped
    else if status == "error" then Failed
    else Odd
  }

  function OddName(d: Doc): string {
    var raw := TrimSpace(d.status);
    if raw == "" then "<empty>" else raw
  }

  function TypeName(d: Doc): string {
    var t := TrimSpace(d.docType);
    if t == "" then "unknown" else t
  }

  datatype Counts = Counts(scanned: nat, indexed: nat, skipped: nat, deleted: nat, errors: nat, unknown: nat)

  function Bump(m: map<string, nat>, k: string): map<string, nat> {
    m[k := (if k in m then m[k] else 0) + 1]
  }

  function Add(c: Counts, d: Doc, lower: string -> string): Counts {
    var seen := c.(scanned := c.scanned + 1);
    if d.deleted then seen.(deleted := c.deleted + 1)
    else
      match KindOf(d, lower)
      case Indexed => seen.(indexed := c.indexed + 1)
      case Skipped => seen.(skipped := c.skipped + 1)
      case Failed => seen.(errors := c.errors + 1)
      case Odd => seen.(unknown := c.unknown + 1)
  }

  function Tally(docs: seq<Doc>, lower: string -> string): Counts {
    if docs == [] then Counts(0, 0, 0, 0, 0, 0) else Add(Tally(docs[..|docs| - 1], lower), docs[|docs| - 1], lower)
  }

  function Active(docs: seq<Doc>): nat {
    if docs == [] then 0 else Active(docs[..|docs| - 1]) + if docs[|docs| - 1].deleted then 0 else 1
  }

  function UnexpectedStatuses(docs: seq<Doc>, lower: string -> string): map<string, nat> {
    if docs == [] then map[] else
      var m, d := UnexpectedStatuses(docs[..|docs| - 1], lower), docs[|docs| - 1];
      if !d.deleted && KindOf(d, lower).Odd? then Bump(m, OddName(d)) else m
  }

  function ActivePerType(docs: seq<Doc>): map<string, nat> {
    if docs == [] then map[] else
      var m, d := ActivePerType(docs[..|docs| - 1]), docs[|docs| - 1];
      if d.deleted then m else Bump(m, TypeName(d))
  }

  /* ---- sums over a map ---- */

  ghost function Sum(m: map<string, nat>): nat
    decreases |m|
  {
    if m == map[] then 0 else
      var k :| k in m;
      Shorter(m, k);
      m[k] + Sum(m - {k})
  }

  lemma Shorter(m: map<string, nat>, k: string)
    requires k in m
    ensures |m - {k}| < |m|
  {
    assert (m - {k}).Keys == m.Keys - {k};
    assert |m.Keys - {k}| == |m.Keys| - 1;
    assert |(m - {k}).Keys| == |m - {k}| && |m.Keys| == |m|;
  }

  lemma {:induction false} SumWithout(m: map<string, nat>, k: string)
    requires k in m
    ensures Sum(m) == m[k] + Sum(m - {k})
    decreases |m|
  {
    var x :| x in m && Sum(m) == m[x] + Sum(m - {x});
    if x != k {
      Shorter(m, x);
      Shorter(m, k);
      SumWithout(m - {x}, k);
      SumWithout(m - {k}, x);
      assert m - {x} - {k} == m - {k} - {x};
    }
  }

  lemma SumBumps(m: map<string, nat>, k: string)
    ensures Sum(Bump(m, k)) == Sum(m) + 1
  {
    var b := Bump(m, k);
    SumWithout(b, k);
    if k in m {
      SumWithout(m, k);
      assert b - {k} == m - {k};
    } else {
      assert b - {k} == m;
    }
  }

  /* ---- the loops ---- */

  lemma TallyNext(docs: seq<Doc>, n: nat, lower: string -> string)
    requires n < |docs|
    ensures Tally(docs[..n + 1], lower) == Add(Tally(docs[..n], lower), docs[n], lower)
    ensures UnexpectedStatuses(docs[..n + 1], lower)
         == if !docs[n].deleted && KindOf(docs[n], lower).Odd?
            then Bump(UnexpectedStatuses(docs[..n], lower), OddName(docs[n]))
            else UnexpectedStatuses(docs[..n], lower)
  {
    assert docs[..n + 1][..n] == docs[..n];
  }

  /** The counts are those of the first `n` documents. */
  predicate Counted(docs: seq<Doc>, n: nat, counts: map<string, nat>, total: nat) {
    n <= |docs| && counts == ActivePerType(docs[..n]) && total == Active(docs[..n])
  }

  lemma CountedNext(docs: seq<Doc>, n: nat, counts: map<string, nat>, total: nat)
    requires n < |docs| && Counted(docs, n, counts, total)
    ensures docs[n].deleted ==> Counted(docs, n + 1, counts, total)
    ensures !docs[n].deleted ==> Counted(docs, n + 1, Bump(counts, TypeName(docs[n])), total + 1)
  {
    assert docs[..n + 1][..n] == docs[..n];
  }

  /** The inner loop of collectDocumentStatusCounts, over one page. */
  method CountPage(st: Store, offset: nat, end: nat, lower: string -> string, c: Counts, odd: map<string, nat>)
    returns (more: Counts, unexpected: map<string, nat>)
    requires offset <= end <= |st.docs|
    requires c == Tally(st.docs[..offset], lower) && odd == UnexpectedStatuses(st.docs[..offset], lower)
    ensures more == Tally(st.docs[..end], lower) && unexpected == UnexpectedStatuses(st.docs[..end], lower)
  {
    more, unexpected := c, odd;
    for n := offset to end
      invariant more == Tally(st.docs[..n], lower) && unexpected == UnexpectedStatuses(st.docs[..n], lower)
    {
      TallyNext(st.docs, n, lower);
      var doc := st.docs[n];
      more := more.(scanned := more.scanned + 1);
      if doc.deleted {
        more := more.(deleted := more.deleted + 1);
        continue;
      }
      match KindOf(doc, lower) {
        case Indexed => more := more.(indexed := more.indexed + 1);
        case Skipped => more := more.(skipped := more.skipped + 1);
        case Failed => more := more.(errors := more.errors + 1);
        case Odd =>
          more := more.(unknown := more.unknown + 1);
          unexpected := Bump(unexpected, OddName(doc));
      }
    }
  }

  /** collectDocumentStatusCounts: None when a read fails. */
  method CollectDocumentStatusCounts(st: Store, lower: string -> string)
    returns (counts: Option<Counts>, unexpected: map<string, nat>)
    ensures counts.Some? == Reach(st, 0).Some?
    ensures counts.Some? ==> var seen := st.docs[..Reach(st, 0).value];
              counts.value == Tally(seen, lower) && unexpected == UnexpectedStatuses(seen, lower)
  {
    var offset: nat := 0;
    var c := Counts(0, 0, 0, 0, 0, 0);
    unexpected := map[];
    while true
      invariant offset <= |st.docs| && Reach(st, offset) == Reach(st, 0)
      invariant c == Tally(st.docs[..offset], lower) && unexpected == UnexpectedStatuses(st.docs[..offset], lower)
      decreases |st.docs| - offset
    {
      if st.fails(offset) {
        return None, map[];
      }
      var end := PageEnd(st, offset);
      c, unexpected := CountPage(st, offset, end, lower, c, unexpected);
      if end == offset || end >= |st.docs| {
        return Some(c), unexpected;
      }
      offset := end;
    }
  }

  /** The inner loop of collectActiveDocCounts, over one page. */
  method CountActivePage(docs: seq<Doc>, offset: nat, end: nat, counts: map<string, nat>, total: nat)
    returns (more: map<string, nat>, active: nat)
    requires offset <= end <= |docs| && Counted(docs, offset, counts, total)
    ensures Counted(docs, end, more, active)
  {
    more, active := counts, total;
    for n := offset to end
      invariant Counted(docs, n, more, active)
    {
      CountedNext(docs, n, more, active);
      var doc := docs[n];
      if doc.deleted {
        continue;
      }
      more, active := Bump(more, TypeName(doc)), active + 1;
    }
  }

  /** collectActiveDocCounts, for a store without an aggregate of its own. */
  method CollectActiveDocCounts(st: Store) returns (counts: Option<map<string, nat>>, total: nat)
    ensures counts.Some? == Reach(st, 0).Some?
    ensures counts.Some? ==> Counted(st.docs, Reach(st, 0).value, counts.value, total)
  {
    var offset: nat := 0;
    var c: map<string, nat> := map[];
    total := 0;
    while true
      invariant offset <= |st.docs| && Reach(st, offset) == Reach(st, 0)
      invariant Counted(st.docs, offset, c, total)
      decreases |st.docs| - offset
    {
      if st.fails(offset) {
        return None, 0;
      }
      var end := PageEnd(st, offset);
      c, total := CountActivePage(st.docs, offset, end, c, total);
      if end == offset || end >= |st.docs| {
        return Some(c), total;
      }
      offset := end;
    }
  }

  /* ---- the figures agree ---- */

  /** Each figure is the number of documents of its class, told by the trimmed and folded status. */
  lemma {:induction false} EachClassIsCounted(docs: seq<Doc>, lower: string -> string)
    ensures var c := Tally(docs, lower);
            && c.deleted == |Where(docs, (d: Doc) => d.deleted)|
            && c.indexed == |Where(docs, (d: Doc) => !d.deleted && lower(TrimSpace(d.status)) in {"indexed", "ok"})|
            && c.skipped == |Where(docs, (d: Doc) => !d.deleted && lower(TrimSpace(d.status)) == "skipped")|
            && c.errors == |Where(docs, (d: Doc) => !d.deleted && lower(TrimSpace(d.status)) == "error")|
            && c.unknown == |Where(docs, (d: Doc) => !d.deleted
                                   && lower(TrimSpace(d.status)) !in {"indexed", "ok", "skipped", "error"})|
  {
    if docs != [] {
      EachClassIsCounted(docs[..|docs| - 1], lower);
      WhereGrows(docs, (d: Doc) => d.deleted);
      WhereGrows(docs, (d: Doc) => !d.deleted && lower(TrimSpace(d.status)) in {"indexed", "ok"});
      WhereGrows(docs, (d: Doc) => !d.deleted && lower(TrimSpace(d.status)) == "skipped");
      WhereGrows(docs, (d: Doc) => !d.deleted && lower(TrimSpace(d.status)) == "error");
      WhereGrows(docs, (d: Doc) => !d.deleted
                       && lower(TrimSpace(d.status)) !in {"indexed", "ok", "skipped", "error"});
    }
  }

  /** Each unexpected status is reported, as it is written, with the number of its documents. */
  lemma {:induction false} EachStatusIsCounted(docs: seq<Doc>, lower: string -> string, name: string)
    ensures var n := |Where(docs, (d: Doc) => !d.deleted
                            && lower(TrimSpace(d.status)) !in {"indexed", "ok", "skipped", "error"}
                            && name == if TrimSpace(d.status) == "" then "<empty>" else TrimSpace(d.status))|;
            At(UnexpectedStatuses(docs, lower), name) == if n == 0 then None else Some(n)
  {
    if docs != [] {
      EachStatusIsCounted(docs[..|docs| - 1], lower, name);
      WhereGrows(docs, (d: Doc) => !d.deleted
                       && lower(TrimSpace(d.status)) !in {"indexed", "ok", "skipped", "error"}
                       && name == if TrimSpace(d.status) == "" then "<empty>" else TrimSpace(d.status));
    }
  }

  /** Every document read is in exactly one of the five classes. */
  lemma {:induction false} ClassesAddUp(docs: seq<Doc>, lower: string -> string)
    ensures var c := Tally(docs, lower);
            c.scanned == |docs| == c.indexed + c.skipped + c.deleted + c.errors + c.unknown
  {
    if docs != [] {
      ClassesAddUp(docs[..|docs| - 1], lower);
    }
  }

  /** The unexpected statuses that are reported account for every unknown document. */
  lemma {:induction false} UnexpectedAddUp(docs: seq<Doc>, lower: string -> string)
    ensures Sum(UnexpectedStatuses(docs, lower)) == Tally(docs, lower).unknown
  {
    if docs != [] {
      var init, d := docs[..|docs| - 1], docs[|docs| - 1];
      UnexpectedAddUp(init, lower);
      if !d.deleted && KindOf(d, lower).Odd? {
        SumBumps(UnexpectedStatuses(init, lower), OddName(d));
      }
    }
  }

  /** The count of each type is the number of its active documents, and types without one are absent. */
  lemma {:induction false} EachTypeIsCounted(docs: seq<Doc>, t: string)
    ensures var n := |Where(docs, (d: Doc) => !d.deleted
                            && t == if TrimSpace(d.docType) == "" then "unknown" else TrimSpace(d.docType))|;
            At(ActivePerType(docs), t) == if n == 0 then None else Some(n)
  {
    if docs != [] {
      EachTypeIsCounted(docs[..|docs| - 1], t);
      WhereGrows(docs, (d: Doc) => !d.deleted
                       && t == if TrimSpace(d.docType) == "" then "unknown" else TrimSpace(d.docType));
    }
  }

  /** Both loops agree: the active total is scanned less deleted, and the sum over the types. */
  lemma {:induction false} TheLoopsAgree(docs: seq<Doc>, lower: string -> string)
    ensures var c := Tally(docs, lower);
            Active(docs) == c.scanned - c.deleted == Sum(ActivePerType(docs))
  {
    if docs != [] {
      var init, d := docs[..|docs| - 1], docs[|docs| - 1];
      TheLoopsAgree(init, lower);
      if !d.deleted {
        SumBumps(ActivePerType(init), TypeName(d));
      }
    }
  }
}
