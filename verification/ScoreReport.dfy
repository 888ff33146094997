/**
 A whole benchmark report: the loops that count, and the order between its figures that
 holds for every results file. `norm` normalises a path; `inlineOf` and `returnedOf` read the
 tags of a row.
 */
module ScoreReport {
  import opened Prelude
  import opened Scoring

  datatype Tag = Tag(rel: string, start: Option<int>, end: Option<int>)
  datatype Question = Question(answers: seq<string>, goldPath: string, goldLine: int)
  datatype Row = Row(id: string, kind: string, answer: string, isError: bool, citations: seq<Tag>)

  /** What one normalisation and two ways to read tags are. */
  datatype Readers = Readers(clean: string -> string, norm: string -> string, inlineOf: Row -> seq<Tag>)

  /** num and den with their quotient, when there is one. */
  datatype Ratio = Ratio(num: nat, den: nat, value: Option<real>)

  function RatioOf(num: nat, den: nat): (r: Ratio)
    ensures r.num == num && r.den == den
    ensures if den == 0 then r.value == None else r.value.Some? && r.value.value * den as real == num as real
  {
    Ratio(num, den, if den > 0 then Some(num as real / den as real) else None)
  }

  datatype Stats = Stats(precisionSpan: Ratio, precisionFile: Ratio, rateSpan: Ratio, rateFile: Ratio)
  datatype Report = Report(containsGold: Ratio, recallMean: Option<real>, inline: Stats, returned: Stats)

  /** supports. */
  predicate Supports(tag: Tag, q: Question, spanLevel: bool, norm: string -> string) {
    if q.goldPath == "" || norm(tag.rel) != q.goldPath then false
    else if !spanLevel then true
    else tag.start.Some? && tag.end.Some? && tag.start.value <= q.goldLine <= tag.end.value
  }

  function Supporting(items: seq<Tag>, q: Question, spanLevel: bool, norm: string -> string): (n: nat)
    ensures n <= |items|
  {
    if items == [] then 0
    else
      Supporting(items[..|items| - 1], q, spanLevel, norm) +
      if Supports(items[|items| - 1], q, spanLevel, norm) then 1 else 0
  }

  /**
   A tag supports a question when it names the gold file and, at span level, has both ends and
   the gold line lies between them, either end included; the count is that of such tags.
   */
  lemma {:induction false} SupportingTagsAreCounted(items: seq<Tag>, q: Question, norm: string -> string)
    ensures Supporting(items, q, false, norm) ==
            |Where(items, (t: Tag) => q.goldPath != "" && norm(t.rel) == q.goldPath)|
    ensures Supporting(items, q, true, norm) ==
            |Where(items, (t: Tag) => q.goldPath != "" && norm(t.rel) == q.goldPath && t.start.Some? && t.end.Some?
                   && t.start.value <= q.goldLine && q.goldLine <= t.end.value)|
  {
    if items != [] {
      SupportingTagsAreCounted(items[..|items| - 1], q, norm);
      WhereGrows(items, (t: Tag) => q.goldPath != "" && norm(t.rel) == q.goldPath);
      WhereGrows(items, (t: Tag) => q.goldPath != "" && norm(t.rel) == q.goldPath && t.start.Some? && t.end.Some?
                 && t.start.value <= q.goldLine && q.goldLine <= t.end.value);
    }
  }

  lemma {:induction false} SpanSupportIsFileSupport(items: seq<Tag>, q: Question, norm: string -> string)
    ensures Supporting(items, q, true, norm) <= Supporting(items, q, false, norm)
  {
    if items != [] {
      SpanSupportIsFileSupport(items[..|items| - 1], q, norm);
    }
  }

  ghost predicate Known(rows: seq<Row>, qmap: map<string, Question>) {
    forall i :: 0 <= i < |rows| ==> rows[i].id in qmap
  }

  /** The answerable rows whose question is known. */
  function Answerable(results: seq<Row>, qmap: map<string, Question>): (rows: seq<Row>)
    ensures Known(rows, qmap)
    ensures forall r :: r in rows <==> r in results && r.id in qmap && r.kind == "answerable"
  {
    if results == [] then []
    else
      assert results == results[..|results| - 1] + [results[|results| - 1]];
      var last := results[|results| - 1];
      Answerable(results[..|results| - 1], qmap) + if last.id in qmap && last.kind == "answerable" then [last] else []
  }

  /** A row is taken as often as it occurs, when its question is known and answerable. */
  lemma {:induction false} AnswerableRowsAreTaken(results: seq<Row>, qmap: map<string, Question>, r: Row)
    ensures multiset(Answerable(results, qmap))[r] ==
            if r.id in qmap && r.kind == "answerable" then multiset(results)[r] else 0
  {
    if results != [] {
      AnswerableRowsAreTaken(results[..|results| - 1], qmap, r);
      assert results == results[..|results| - 1] + [results[|results| - 1]];
    }
  }

  /** The five counters of citation_stats. */
  datatype Counts = Counts(total: nat, span: nat, file: nat, hitSpan: nat, hitFile: nat)

  /** The ratios of citation_stats. */
  function StatsOf(c: Counts, answers: nat): Stats {
    Stats(RatioOf(c.span, c.total), RatioOf(c.file, c.total), RatioOf(c.hitSpan, answers), RatioOf(c.hitFile, answers))
  }

  function Add(c: Counts, items: seq<Tag>, q: Question, norm: string -> string): Counts {
    var span, file := Supporting(items, q, true, norm), Supporting(items, q, false, norm);
    Counts(c.total + |items|, c.span + span, c.file + file,
           c.hitSpan + if span > 0 then 1 else 0, c.hitFile + if file > 0 then 1 else 0)
  }

  function CountsOf(ans: seq<Row>, qmap: map<string, Question>, itemsOf: Row -> seq<Tag>,
                    norm: string -> string): Counts
    requires Known(ans, qmap)
  {
    if ans == [] then Counts(0, 0, 0, 0, 0)
    else
      var last := ans[|ans| - 1];
      Add(CountsOf(ans[..|ans| - 1], qmap, itemsOf, norm), itemsOf(last), qmap[last.id], norm)
  }

  /** The numbers whose sum a counter is: one for each row. */
  ghost function SumOf(ns: seq<nat>): nat {
    if ns == [] then 0 else SumOf(ns[..|ns| - 1]) + ns[|ns| - 1]
  }

  /** What one row adds to the three counters of tags. */
  ghost predicate RowAdds(items: seq<Tag>, q: Question, norm: string -> string, total: nat, span: nat, file: nat) {
    && total == |items|
    && file == |Where(items, (t: Tag) => q.goldPath != "" && norm(t.rel) == q.goldPath)|
    && span == |Where(items, (t: Tag) => q.goldPath != "" && norm(t.rel) == q.goldPath && t.start.Some? && t.end.Some?
                      && t.start.value <= q.goldLine && q.goldLine <= t.end.value)|
  }

  ghost predicate RowsAdd(ans: seq<Row>, qmap: map<string, Question>, itemsOf: Row -> seq<Tag>,
                          norm: string -> string, totals: seq<nat>, spans: seq<nat>, files: seq<nat>)
    requires Known(ans, qmap)
  {
    && |totals| == |spans| == |files| == |ans|
    && forall i :: 0 <= i < |ans| ==>
         RowAdds(itemsOf(ans[i]), qmap[ans[i].id], norm, totals[i], spans[i], files[i])
  }

  /** The counters are the sums, and the numbers of rows that add anything. */
  ghost predicate SumsUp(c: Counts, totals: seq<nat>, spans: seq<nat>, files: seq<nat>) {
    && c.total == SumOf(totals) && c.span == SumOf(spans) && c.file == SumOf(files)
    && c.hitSpan == |Where(spans, (n: nat) => n > 0)| && c.hitFile == |Where(files, (n: nat) => n > 0)|
  }

  lemma CountsGrow(before: Counts, items: seq<Tag>, q: Question, norm: string -> string,
                   a: seq<nat>, b: seq<nat>, c: seq<nat>)
    requires SumsUp(before, a, b, c)
    ensures SumsUp(Add(before, items, q, norm), a + [|items|], b + [Supporting(items, q, true, norm)],
                   c + [Supporting(items, q, false, norm)])
  {
    OneMoreNumber(a, |items|);
    OneMoreNumber(b, Supporting(items, q, true, norm));
    OneMoreNumber(c, Supporting(items, q, false, norm));
  }

  lemma OneMoreNumber(ns: seq<nat>, n: nat)
    ensures SumOf(ns + [n]) == SumOf(ns) + n
    ensures |Where(ns + [n], (n: nat) => n > 0)| == |Where(ns, (n: nat) => n > 0)| + if n > 0 then 1 else 0
  {
    assert (ns + [n])[..|ns + [n]| - 1] == ns;
    WhereGrows(ns + [n], (n: nat) => n > 0);
  }

  /**
   The counters: all tags, those that support at span and at file level, summed over the
   rows, and how many rows have at least one of either.
   */
  lemma {:induction false} CountersAddUp(ans: seq<Row>, qmap: map<string, Question>, itemsOf: Row -> seq<Tag>,
                                         norm: string -> string)
    returns (totals: seq<nat>, spans: seq<nat>, files: seq<nat>)
    requires Known(ans, qmap)
    ensures RowsAdd(ans, qmap, itemsOf, norm, totals, spans, files)
    ensures SumsUp(CountsOf(ans, qmap, itemsOf, norm), totals, spans, files)
  {
    totals, spans, files := [], [], [];
    if ans != [] {
      var init, last := ans[..|ans| - 1], ans[|ans| - 1];
      var a, b, c := CountersAddUp(init, qmap, itemsOf, norm);
      var items, q := itemsOf(last), qmap[last.id];
      var span, file := Supporting(items, q, true, norm), Supporting(items, q, false, norm);
      OneRowAdds(items, q, norm);
      totals, spans, files := a + [|items|], b + [span], c + [file];
      CountsGrow(CountsOf(init, qmap, itemsOf, norm), items, q, norm, a, b, c);
      RowsAddOneMore(ans, qmap, itemsOf, norm, a, b, c, |items|, span, file);
    }
  }

  lemma RowsAddOneMore(ans: seq<Row>, qmap: map<string, Question>, itemsOf: Row -> seq<Tag>, norm: string -> string,
                       a: seq<nat>, b: seq<nat>, c: seq<nat>, total: nat, span: nat, file: nat)
    requires Known(ans, qmap) && ans != [] && RowsAdd(ans[..|ans| - 1], qmap, itemsOf, norm, a, b, c)
    requires var last := ans[|ans| - 1]; RowAdds(itemsOf(last), qmap[last.id], norm, total, span, file)
    ensures RowsAdd(ans, qmap, itemsOf, norm, a + [total], b + [span], c + [file])
  {
    var init := ans[..|ans| - 1];
    forall i | 0 <= i < |ans|
      ensures RowAdds(itemsOf(ans[i]), qmap[ans[i].id], norm, (a + [total])[i], (b + [span])[i], (c + [file])[i])
    {
      if i < |init| {
        assert RowAdds(itemsOf(init[i]), qmap[init[i].id], norm, a[i], b[i], c[i]);
      }
    }
  }

  lemma OneRowAdds(items: seq<Tag>, q: Question, norm: string -> string)
    ensures RowAdds(items, q, norm, |items|, Supporting(items, q, true, norm), Supporting(items, q, false, norm))
  {
    SupportingTagsAreCounted(items, q, norm);
  }

  /** A span-level count never exceeds its file-level one, and neither exceeds what it is a share of. */
  lemma {:induction false} SpanCountsAtMostFileCounts(ans: seq<Row>, qmap: map<string, Question>,
                                                      itemsOf: Row -> seq<Tag>, norm: string -> string)
    requires Known(ans, qmap)
    ensures var c := CountsOf(ans, qmap, itemsOf, norm);
            c.span <= c.file <= c.total && c.hitSpan <= c.hitFile <= |ans| && c.hitSpan <= c.span && c.hitFile <= c.file
  {
    if ans != [] {
      var last := ans[|ans| - 1];
      SpanCountsAtMostFileCounts(ans[..|ans| - 1], qmap, itemsOf, norm);
      SpanSupportIsFileSupport(itemsOf(last), qmap[last.id], norm);
    }
  }

  /** citation_stats. */
  method CitationStats(ans: seq<Row>, qmap: map<string, Question>, itemsOf: Row -> seq<Tag>, norm: string -> string)
    returns (stats: Stats)
    requires Known(ans, qmap)
    ensures stats == StatsOf(CountsOf(ans, qmap, itemsOf, norm), |ans|)
    ensures var c := CountsOf(ans, qmap, itemsOf, norm);
            && stats.precisionSpan.num == c.span && stats.precisionFile.num == c.file
            && stats.precisionSpan.den == stats.precisionFile.den == c.total
            && stats.rateSpan.num == c.hitSpan && stats.rateFile.num == c.hitFile
            && stats.rateSpan.den == stats.rateFile.den == |ans|
    ensures AtMost(stats.precisionSpan.value, stats.precisionFile.value)
    ensures AtMost(stats.rateSpan.value, stats.rateFile.value)
  {
    var total: nat, span: nat, file: nat, hitSpan: nat, hitFile: nat := 0, 0, 0, 0, 0;
    for n := 0 to |ans|
      invariant Counts(total, span, file, hitSpan, hitFile) == CountsOf(ans[..n], qmap, itemsOf, norm)
    {
      assert ans[..n + 1][..n] == ans[..n];
      var q, items := qmap[ans[n].id], itemsOf(ans[n]);
      total := total + |items|;
      var nSpan, nFile := Supporting(items, q, true, norm), Supporting(items, q, false, norm);
      span, file := span + nSpan, file + nFile;
      hitSpan := hitSpan + if nSpan > 0 then 1 else 0;
      hitFile := hitFile + if nFile > 0 then 1 else 0;
    }
    assert ans[..|ans|] == ans;
    SpanCountsAtMostFileCounts(ans, qmap, itemsOf, norm);
    RatiosKeepOrder(span, file, total);
    RatiosKeepOrder(hitSpan, hitFile, |ans|);
    stats := Stats(RatioOf(span, total), RatioOf(file, total), RatioOf(hitSpan, |ans|), RatioOf(hitFile, |ans|));
  }

  /** Either figure may be missing, and only with the other; otherwise they are in order. */
  predicate AtMost(a: Option<real>, b: Option<real>) {
    a.Some? == b.Some? && (a.Some? ==> a.value <= b.value)
  }

  lemma Quotients(a: real, b: real, den: real)
    requires a <= b && den > 0.0
    ensures a / den <= b / den
  {}

  lemma RatiosKeepOrder(a: nat, b: nat, den: nat)
    requires a <= b
    ensures AtMost(RatioOf(a, den).value, RatioOf(b, den).value)
  {
    if den > 0 {
      Quotients(a as real, b as real, den as real);
    }
  }

  predicate IsCorrect(r: Row, qmap: map<string, Question>, clean: string -> string)
    requires r.id in qmap
  {
    !r.isError && ContainsGold(r.answer, qmap[r.id].answers, clean)
  }

  function Correct(ans: seq<Row>, qmap: map<string, Question>, clean: string -> string): nat
    requires Known(ans, qmap)
  {
    if ans == [] then 0
    else Correct(ans[..|ans| - 1], qmap, clean) + if IsCorrect(ans[|ans| - 1], qmap, clean) then 1 else 0
  }

  /** No error, and the tokens of a gold answer are a run of the answer's. */
  ghost predicate IsRight(r: Row, qmap: map<string, Question>, clean: string -> string) {
    && !r.isError && r.id in qmap
    && exists k :: 0 <= k < |qmap[r.id].answers| && HasRun(r.answer, qmap[r.id].answers[k], clean)
  }

  /** The correct answers are counted. */
  lemma {:induction false} CorrectAnswersAreCounted(ans: seq<Row>, qmap: map<string, Question>,
                                                    clean: string -> string)
    requires Known(ans, qmap)
    ensures Correct(ans, qmap, clean) == |Where(ans, (r: Row) => IsRight(r, qmap, clean))|
  {
    if ans != [] {
      CorrectAnswersAreCounted(ans[..|ans| - 1], qmap, clean);
      WhereGrows(ans, (r: Row) => IsRight(r, qmap, clean));
      RightIffCorrect(ans[|ans| - 1], qmap, clean);
    }
  }

  lemma RightIffCorrect(r: Row, qmap: map<string, Question>, clean: string -> string)
    requires r.id in qmap
    ensures IsRight(r, qmap, clean) <==> IsCorrect(r, qmap, clean)
  {
    var golds := qmap[r.id].answers;
    forall k | 0 <= k < |golds| ensures HasRun(r.answer, golds[k], clean) <==> HoldsGold(r.answer, golds[k], clean) {
      RunIffHeld(r.answer, golds[k], clean);
    }
  }

  lemma RunIffHeld(answer: string, gold: string, clean: string -> string)
    ensures HasRun(answer, gold, clean) <==> HoldsGold(answer, gold, clean)
  {
    ContainedIffRun(answer, gold, clean);
    var a, g := Fields(clean(answer)), Fields(clean(gold));
    assert a == AnswerTokens(answer, clean) && g == AnswerTokens(gold, clean);
  }

  /** The gold answer has tokens, and they are a contiguous run of the answer's. */
  ghost predicate HasRun(answer: string, gold: string, clean: string -> string) {
    var a, g := Fields(clean(answer)), Fields(clean(gold));
    g != [] && exists j: int :: RunAt(a, g, j)
  }

  function RecallSum(ans: seq<Row>, qmap: map<string, Question>, clean: string -> string): real
    requires Known(ans, qmap)
  {
    if ans == [] then 0.0
    else RecallSum(ans[..|ans| - 1], qmap, clean) +
         TokenRecall(ans[|ans| - 1].answer, qmap[ans[|ans| - 1].id].answers, clean)
  }

  /** The correct answers are at most the sum of the recalls, which is at most the answers. */
  lemma {:induction false} CorrectAtMostRecall(ans: seq<Row>, qmap: map<string, Question>, clean: string -> string)
    requires Known(ans, qmap)
    ensures Correct(ans, qmap, clean) as real <= RecallSum(ans, qmap, clean) <= |ans| as real
  {
    if ans != [] {
      var last := ans[|ans| - 1];
      var golds := qmap[last.id].answers;
      CorrectAtMostRecall(ans[..|ans| - 1], qmap, clean);
      RecallIsAShare(last.answer, golds, clean);
      if IsCorrect(last, qmap, clean) {
        ContainedMeansFullRecall(last.answer, golds, clean);
      }
    }
  }

  ghost function Total(rs: seq<real>): real {
    if rs == [] then 0.0 else Total(rs[..|rs| - 1]) + rs[|rs| - 1]
  }

  /** The sum has one term for each answer, its token recall. */
  lemma {:induction false} RecallsAddUp(ans: seq<Row>, qmap: map<string, Question>, clean: string -> string)
    returns (rs: seq<real>)
    requires Known(ans, qmap)
    ensures |rs| == |ans| && RecallSum(ans, qmap, clean) == Total(rs)
    ensures forall i :: 0 <= i < |ans| ==> rs[i] == TokenRecall(ans[i].answer, qmap[ans[i].id].answers, clean)
  {
    rs := [];
    if ans != [] {
      var init, last := ans[..|ans| - 1], ans[|ans| - 1];
      var more := RecallsAddUp(init, qmap, clean);
      rs := more + [TokenRecall(last.answer, qmap[last.id].answers, clean)];
      assert rs[..|more|] == more;
      assert forall i :: 0 <= i < |init| ==> init[i] == ans[i];
    }
  }

  /** The share of correct answers and the mean recall. */
  method AnswerFigures(ans: seq<Row>, qmap: map<string, Question>, clean: string -> string)
    returns (contains: Ratio, mean: Option<real>)
    requires Known(ans, qmap)
    ensures contains == RatioOf(Correct(ans, qmap, clean), |ans|)
    ensures mean == if ans == [] then None else Some(RecallSum(ans, qmap, clean) / |ans| as real)
    ensures AtMost(contains.value, mean)
  {
    var correct: nat := 0;
    var sum := 0.0;
    for n := 0 to |ans|
      invariant correct == Correct(ans[..n], qmap, clean) && sum == RecallSum(ans[..n], qmap, clean)
    {
      assert ans[..n + 1][..n] == ans[..n];
      if IsCorrect(ans[n], qmap, clean) {
        correct := correct + 1;
      }
      sum := sum + TokenRecall(ans[n].answer, qmap[ans[n].id].answers, clean);
    }
    assert ans[..|ans|] == ans;
    contains := RatioOf(correct, |ans|);
    mean := None;
    if |ans| > 0 {
      CorrectAtMostRecall(ans, qmap, clean);
      Quotients(correct as real, sum, |ans| as real);
      mean := Some(sum / |ans| as real);
    }
  }

  /** score: on every results file the stricter figure is at most the looser one. */
  method Score(results: seq<Row>, qmap: map<string, Question>, r: Readers) returns (report: Report)
    ensures var ans := Answerable(results, qmap);
            && report.containsGold == RatioOf(Correct(ans, qmap, r.clean), |ans|)
            && report.recallMean == (if ans == [] then None else Some(RecallSum(ans, qmap, r.clean) / |ans| as real))
            && report.inline == StatsOf(CountsOf(ans, qmap, r.inlineOf, r.norm), |ans|)
    ensures exists citationsOf: Row -> seq<Tag> ::
              && (forall row :: citationsOf(row) == row.citations)
              && report.returned == StatsOf(CountsOf(Answerable(results, qmap), qmap, citationsOf, r.norm),
                  |Answerable(results, qmap)|)
    ensures AtMost(report.containsGold.value, report.recallMean)
    ensures AtMost(report.inline.precisionSpan.value, report.inline.precisionFile.value)
    ensures AtMost(report.inline.rateSpan.value, report.inline.rateFile.value)
    ensures AtMost(report.returned.precisionSpan.value, report.returned.precisionFile.value)
    ensures AtMost(report.returned.rateSpan.value, report.returned.rateFile.value)
  {
    var ans := Answerable(results, qmap);
    var inline := CitationStats(ans, qmap, r.inlineOf, r.norm);
    var citationsOf := (row: Row) => row.citations;
    var returned := CitationStats(ans, qmap, citationsOf, r.norm);
    var contains, mean := AnswerFigures(ans, qmap, r.clean);
    report := Report(contains, mean, inline, returned);
  }
}
