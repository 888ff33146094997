/**
 The merge of one group of cues: noisy-OR over sources, the union of entities, and the
 attributes no two cues disagree on; then fuse as a whole.
 */
module FusionMerge {
  import opened Prelude
  import opened Fusion

  datatype Annotation = Annotation(start: real, end: real, event: string, entities: seq<string>, text: string,
                                   confidence: real, sources: seq<string>, attributes: map<string, string>)

  function Max(a: real, b: real): real { if a < b then b else a }

  /* ---- products ---- */

  function Product(ps: seq<real>): real {
    if ps == [] then 1.0 else Product(ps[..|ps| - 1]) * ps[|ps| - 1]
  }

  lemma Shrinks(m: real, q: real)
    requires 0.0 <= m <= 1.0 && 0.0 <= q <= 1.0
    ensures 0.0 <= m * q <= m && m * q <= q
  {
    assert 0.0 <= (1.0 - m) * q == q - m * q;
  }

  predicate Probabilities(ps: seq<real>) {
    forall i :: 0 <= i < |ps| ==> 0.0 <= ps[i] <= 1.0
  }

  lemma {:induction false} ProductBounds(ps: seq<real>)
    requires Probabilities(ps)
    ensures 0.0 <= Product(ps) <= 1.0
    ensures forall k :: 0 <= k < |ps| ==> Product(ps) <= ps[k]
  {
    if ps != [] {
      var init, last := ps[..|ps| - 1], ps[|ps| - 1];
      ProductBounds(init);
      var m := Product(init);
      Shrinks(m, last);
      assert Product(ps) == m * last;
      forall k | 0 <= k < |ps| ensures Product(ps) <= ps[k] {
        assert k < |init| ==> init[k] == ps[k];
      }
    }
  }

  lemma Swap(a: real, b: real, c: real)
    ensures a * b * c == a * c * b
  {}

  lemma DropOne(ps: seq<real>, k: nat)
    requires k < |ps| - 1
    ensures var init, less := ps[..|ps| - 1], ps[..k] + ps[k + 1..];
            |less| == |ps| - 1 && less[..|less| - 1] == init[..k] + init[k + 1..] && less[|less| - 1] == ps[|ps| - 1]
  {}

  lemma {:induction false} ProductWithout(ps: seq<real>, k: nat)
    requires k < |ps|
    ensures Product(ps) == Product(ps[..k] + ps[k + 1..]) * ps[k]
  {
    var init, last := ps[..|ps| - 1], ps[|ps| - 1];
    if k == |ps| - 1 {
      assert ps[..k] + ps[k + 1..] == init;
    } else {
      ProductWithout(init, k);
      DropOne(ps, k);
      Swap(Product(init[..k] + init[k + 1..]), ps[k], last);
    }
  }

  lemma Parts(ps: seq<real>, k: nat)
    requires k < |ps|
    ensures multiset(ps) == multiset(ps[..k] + ps[k + 1..]) + multiset{ps[k]}
  {
    assert ps == ps[..k] + [ps[k]] + ps[k + 1..];
  }

  lemma Cancel(a: multiset<real>, b: multiset<real>, x: real)
    requires a + multiset{x} == b + multiset{x}
    ensures a == b
  {
    assert a == a + multiset{x} - multiset{x};
    assert b == b + multiset{x} - multiset{x};
  }

  lemma Peel(ps: seq<real>, qs: seq<real>) returns (k: nat)
    requires ps != [] && multiset(ps) == multiset(qs)
    ensures k < |qs| && qs[k] == ps[|ps| - 1]
    ensures multiset(ps[..|ps| - 1]) == multiset(qs[..k] + qs[k + 1..])
  {
    var last := ps[|ps| - 1];
    assert last in multiset(qs);
    k :| 0 <= k < |qs| && qs[k] == last;
    Parts(ps, |ps| - 1);
    Parts(qs, k);
    assert ps[..|ps| - 1] + ps[|ps|..] == ps[..|ps| - 1];
    Cancel(multiset(ps[..|ps| - 1]), multiset(qs[..k] + qs[k + 1..]), last);
  }

  lemma {:induction false} ProductIgnoresOrder(ps: seq<real>, qs: seq<real>)
    requires multiset(ps) == multiset(qs)
    ensures Product(ps) == Product(qs)
  {
    if ps == [] {
      assert |multiset(qs)| == 0;
    } else {
      var k := Peel(ps, qs);
      ProductIgnoresOrder(ps[..|ps| - 1], qs[..k] + qs[k + 1..]);
      ProductWithout(qs, k);
    }
  }

  /* ---- confidence ---- */

  /** best_per_source. */
  function Best(group: seq<Cue>): map<string, real> {
    if group == [] then map[] else
      var best, c := Best(group[..|group| - 1]), group[|group| - 1];
      best[c.source := Max(if c.source in best then best[c.source] else 0.0, c.confidence)]
  }

  /** The sources in the order they first appear, which is the order the map is walked in. */
  function Sources(group: seq<Cue>): (r: seq<string>)
    ensures forall s :: s in r <==> s in Best(group)
  {
    if group == [] then [] else
      var sources, c := Sources(group[..|group| - 1]), group[|group| - 1];
      if c.source in sources then sources else sources + [c.source]
  }

  /** The chance that a claim made with confidence `p` is wrong. */
  function Doubt(p: real): real { 1.0 - p }

  predicate Keyed(sources: seq<string>, best: map<string, real>) {
    forall s :: s in sources ==> s in best
  }

  /** The doubt about each source. */
  function Doubts(sources: seq<string>, best: map<string, real>): (r: seq<real>)
    requires Keyed(sources, best)
    ensures |r| == |sources|
  {
    if sources == [] then [] else Doubts(sources[..|sources| - 1], best) + [Doubt(best[sources[|sources| - 1]])]
  }

  lemma {:induction false} DoubtAt(sources: seq<string>, best: map<string, real>, i: nat)
    requires Keyed(sources, best) && i < |sources|
    ensures Doubts(sources, best)[i] == Doubt(best[sources[i]])
  {
    if i < |sources| - 1 {
      DoubtAt(sources[..|sources| - 1], best, i);
    }
  }

  function DoubtsOf(group: seq<Cue>): seq<real> {
    Doubts(Sources(group), Best(group))
  }

  /** The noisy-OR of the group before rounding. */
  function Confidence(group: seq<Cue>): real {
    1.0 - Product(DoubtsOf(group))
  }

  predicate Distinct(s: seq<string>) {
    forall i, j :: 0 <= i < j < |s| ==> s[i] != s[j]
  }

  lemma {:induction false} SourcesAreDistinct(group: seq<Cue>)
    ensures Distinct(Sources(group))
  {
    if group != [] {
      SourcesAreDistinct(group[..|group| - 1]);
    }
  }

  /** What the best map holds: the largest confidence of the source's own cues. */
  lemma {:induction false} BestIsTheLargest(group: seq<Cue>)
    requires CuesOk(group)
    ensures forall i :: 0 <= i < |group| ==>
              group[i].source in Best(group) && group[i].confidence <= Best(group)[group[i].source]
    ensures forall s :: s in Best(group) ==> 0.0 <= Best(group)[s] <= 1.0 && Attained(group, s, Best(group)[s])
  {
    if group != [] {
      var init, c := group[..|group| - 1], group[|group| - 1];
      assert CueOk(c);
      BestIsTheLargest(init);
      forall i | 0 <= i < |group|
        ensures group[i].source in Best(group) && group[i].confidence <= Best(group)[group[i].source]
      {
        assert i < |init| ==> init[i] == group[i];
      }
      forall s | s in Best(group) ensures 0.0 <= Best(group)[s] <= 1.0 && Attained(group, s, Best(group)[s]) {
        if s in Best(init) {
          var i :| 0 <= i < |init| && init[i].source == s && init[i].confidence == Best(init)[s];
          assert group[i] == init[i];
        }
        assert group[|group| - 1] == c;
      }
    }
  }

  ghost predicate Attained(group: seq<Cue>, s: string, p: real) {
    exists i :: 0 <= i < |group| && group[i].source == s && group[i].confidence == p
  }

  /** The confidence lies between that of the most confident cue and one. */
  lemma ConfidenceIsBetween(group: seq<Cue>, i: nat)
    requires CuesOk(group) && i < |group|
    ensures group[i].confidence <= Confidence(group) <= 1.0
  {
    BestIsTheLargest(group);
    var doubts, sources := DoubtsOf(group), Sources(group);
    forall k | 0 <= k < |doubts| ensures 0.0 <= doubts[k] <= 1.0 {
      assert sources[k] in Best(group);
      DoubtAt(sources, Best(group), k);
    }
    ProductBounds(doubts);
    assert group[i].source in sources;
    var k :| 0 <= k < |sources| && sources[k] == group[i].source;
    DoubtAt(sources, Best(group), k);
  }

  /** Both hold the same elements. */
  ghost predicate SameElements(a: seq<string>, b: seq<string>) {
    forall s :: s in a <==> s in b
  }

  lemma PeelLast(a: seq<string>, b: seq<string>) returns (k: nat)
    requires a != [] && Distinct(a) && Distinct(b) && SameElements(a, b)
    ensures k < |b| && b[k] == a[|a| - 1]
    ensures var init, less := a[..|a| - 1], b[..k] + b[k + 1..];
            Distinct(init) && Distinct(less) && SameElements(init, less)
  {
    var last := |a| - 1;
    assert a[last] in a;
    k :| 0 <= k < |b| && b[k] == a[last];
    Without(a, last);
    Without(b, k);
    assert a[..last] + a[last + 1..] == a[..last];
  }

  lemma NonEmptyToo(a: seq<string>, b: seq<string>)
    requires SameElements(a, b)
    ensures b != [] ==> a != []
  {
    if b != [] {
      assert b[0] in a;
    }
  }

  lemma DoubtsOfMore(sources: seq<string>, s: string, best: map<string, real>)
    requires Keyed(sources + [s], best)
    ensures Keyed(sources, best) && s in best
    ensures Doubts(sources + [s], best) == Doubts(sources, best) + [Doubt(best[s])]
  {
    assert s in sources + [s];
    assert (sources + [s])[..|sources|] == sources;
  }

  lemma LessIsKeyed(b: seq<string>, k: nat, best: map<string, real>)
    requires k < |b| && Keyed(b, best)
    ensures Keyed(b[..k] + b[k + 1..], best)
  {}

  lemma LessOfMore(init: seq<string>, last: string, k: nat)
    requires k < |init|
    ensures var b := init + [last]; b[..k] + b[k + 1..] == init[..k] + init[k + 1..] + [last]
  {}

  lemma PeelLastDoubt(init: seq<string>, last: string, k: nat, best: map<string, real>)
    requires k < |init| && Keyed(init + [last], best)
    ensures var b := init + [last];
            && Keyed(init, best) && Keyed(b[..k] + b[k + 1..], best) && Keyed(init[..k] + init[k + 1..], best)
            && Doubts(b[..k] + b[k + 1..], best) == Doubts(init[..k] + init[k + 1..], best) + [Doubt(best[last])]
  {
    var b := init + [last];
    LessIsKeyed(b, k, best);
    LessOfMore(init, last, k);
    DoubtsOfMore(init[..k] + init[k + 1..], last, best);
    DoubtsOfMore(init, last, best);
  }

  lemma {:induction false} PeelDoubts(b: seq<string>, k: nat, best: map<string, real>)
    requires k < |b| && Keyed(b, best)
    ensures Keyed(b[..k] + b[k + 1..], best)
    ensures multiset(Doubts(b, best)) == multiset(Doubts(b[..k] + b[k + 1..], best)) + multiset{Doubt(best[b[k]])}
  {
    if k == |b| - 1 {
      assert b[..k] + b[k + 1..] == b[..k] && b == b[..k] + [b[k]];
      DoubtsOfMore(b[..k], b[k], best);
    } else {
      var init, last := b[..|b| - 1], b[|b| - 1];
      assert b == init + [last];
      PeelLastDoubt(init, last, k, best);
      DoubtsOfMore(init, last, best);
      PeelDoubts(init, k, best);
    }
  }

  /** A second distinct walk over the same keys gives the same factors. */
  lemma {:induction false} DoubtsIgnoreOrder(a: seq<string>, b: seq<string>, best: map<string, real>)
    requires Distinct(a) && Distinct(b) && SameElements(a, b)
    requires Keyed(a, best) && Keyed(b, best)
    ensures multiset(Doubts(a, best)) == multiset(Doubts(b, best))
  {
    if a == [] {
      NonEmptyToo(a, b);
    } else {
      var k := PeelLast(a, b);
      PeelDoubts(b, k, best);
      DoubtsIgnoreOrder(a[..|a| - 1], b[..k] + b[k + 1..], best);
    }
  }

  lemma Without(s: seq<string>, k: nat)
    requires Distinct(s) && k < |s|
    ensures var less := s[..k] + s[k + 1..]; Distinct(less) && forall x :: x in less <==> x in s && x != s[k]
  {
    var less := s[..k] + s[k + 1..];
    forall x | x in s && x != s[k] ensures x in less {
      var i :| 0 <= i < |s| && s[i] == x;
      assert less[if i < k then i else i - 1] == x;
    }
  }

  /** Two groups with the same cues in any order have the same confidence. */
  lemma ConfidenceIgnoresOrder(g: seq<Cue>, h: seq<Cue>)
    requires CuesOk(g) && CuesOk(h) && multiset(g) == multiset(h)
    ensures Confidence(g) == Confidence(h)
  {
    BestIgnoresOrder(g, h);
    SourcesAreDistinct(g);
    SourcesAreDistinct(h);
    DoubtsIgnoreOrder(Sources(g), Sources(h), Best(g));
    ProductIgnoresOrder(DoubtsOf(g), DoubtsOf(h));
  }

  lemma BestIgnoresOrder(g: seq<Cue>, h: seq<Cue>)
    requires CuesOk(g) && CuesOk(h) && multiset(g) == multiset(h)
    ensures Best(g) == Best(h)
  {
    BestIsTheLargest(g);
    BestIsTheLargest(h);
    forall s | s in Best(g) ensures s in Best(h) && Best(g)[s] <= Best(h)[s] {
      AtMost(g, h, s);
    }
    forall s | s in Best(h) ensures s in Best(g) && Best(h)[s] <= Best(g)[s] {
      AtMost(h, g, s);
    }
  }

  lemma AtMost(g: seq<Cue>, h: seq<Cue>, s: string)
    requires CuesOk(g) && CuesOk(h) && multiset(g) == multiset(h) && s in Best(g)
    ensures s in Best(h) && Best(g)[s] <= Best(h)[s]
  {
    BestIsTheLargest(g);
    BestIsTheLargest(h);
    assert Attained(g, s, Best(g)[s]);
    var i :| 0 <= i < |g| && g[i].source == s && g[i].confidence == Best(g)[s];
    assert g[i] in multiset(h);
    var k :| 0 <= k < |h| && h[k] == g[i];
  }

  /** A cue no stronger than one its own source already gave changes nothing. */
  lemma RepeatedSourceDoesNotCount(group: seq<Cue>, i: nat, c: Cue)
    requires CuesOk(group + [c]) && i < |group| && group[i].source == c.source && c.confidence <= group[i].confidence
    ensures Confidence(group + [c]) == Confidence(group)
  {
    assert (group + [c])[..|group|] == group;
    assert forall k :: 0 <= k < |group| ==> (group + [c])[k] == group[k];
    BestIsTheLargest(group);
    assert Best(group + [c]) == Best(group);
    assert Sources(group + [c]) == Sources(group);
  }

  lemma NewSourceIsAppended(group: seq<Cue>, c: Cue)
    requires CueOk(c) && c.source !in Best(group)
    ensures Sources(group + [c]) == Sources(group) + [c.source]
    ensures Best(group + [c]) == Best(group)[c.source := c.confidence]
  {
    var after := group + [c];
    assert after[..|after| - 1] == group && after[|after| - 1] == c;
    assert c.source !in Sources(group);
  }

  lemma {:induction false} DoubtsAgree(sources: seq<string>, a: map<string, real>, b: map<string, real>)
    requires forall s :: s in sources ==> s in a && s in b && a[s] == b[s]
    ensures Doubts(sources, a) == Doubts(sources, b)
  {
    if sources != [] {
      DoubtsAgree(sources[..|sources| - 1], a, b);
    }
  }

  /** A cue from a new source counts as an independent one: its doubt becomes one more factor. */
  lemma NewSourceIsIndependent(group: seq<Cue>, c: Cue) returns (doubt: real)
    requires CueOk(c) && c.source !in Best(group)
    ensures doubt == 1.0 - c.confidence && DoubtsOf(group + [c]) == DoubtsOf(group) + [doubt]
  {
    doubt := Doubt(c.confidence);
    NewSourceIsAppended(group, c);
    var sources, more := Sources(group), Best(group)[c.source := c.confidence];
    DoubtsOfMore(sources, c.source, more);
    DoubtsAgree(sources, Best(group), more);
  }

  /** One cue is as confident as it says. */
  lemma OneCueIsItself(c: Cue)
    requires CueOk(c)
    ensures Confidence([c]) == c.confidence
  {
    assert [] + [c] == [c];
    EmptyGroup();
    var d := NewSourceIsIndependent([], c);
    assert DoubtsOf([c]) == [d] && [d][..0] == [];
    assert Product([d]) == 1.0 * d == d;
  }

  lemma EmptyGroup()
    ensures DoubtsOf([]) == [] && Product([]) == 1.0 && Best([]) == map[]
  {}

  /** What is left of the confidence after one more factor of doubt. */
  lemma OneMoreDoubt(ps: seq<real>, qs: seq<real>, doubt: real, before: real, after: real)
    requires qs == ps + [doubt] && before == 1.0 - Product(ps) && after == 1.0 - Product(qs)
    ensures 1.0 - after == (1.0 - before) * doubt
  {
    ProductOfMore(ps, doubt);
    assert 1.0 - before == Product(ps) && 1.0 - after == Product(ps) * doubt;
  }

  lemma ProductOfMore(ps: seq<real>, p: real)
    ensures Product(ps + [p]) == Product(ps) * p
  {
    assert (ps + [p])[..|ps|] == ps;
  }

  lemma OneMoreFactor(g: seq<Cue>, h: seq<Cue>, doubt: real)
    requires DoubtsOf(h) == DoubtsOf(g) + [doubt]
    ensures 1.0 - Confidence(h) == (1.0 - Confidence(g)) * doubt
  {
    OneMoreDoubt(DoubtsOf(g), DoubtsOf(h), doubt, Confidence(g), Confidence(h));
  }

  lemma {:induction false} NotASource(group: seq<Cue>, s: string)
    requires forall i :: 0 <= i < |group| ==> group[i].source != s
    ensures s !in Best(group)
  {
    if group != [] {
      NotASource(group[..|group| - 1], s);
    }
  }

  /** Sources are independent: the chance that all are wrong is the product, which is the noisy-OR. */
  lemma NewSourceMultiplies(group: seq<Cue>, c: Cue)
    requires CueOk(c) && forall i :: 0 <= i < |group| ==> group[i].source != c.source
    ensures 1.0 - Confidence(group + [c]) == (1.0 - Confidence(group)) * (1.0 - c.confidence)
  {
    NotASource(group, c.source);
    var doubt := NewSourceIsIndependent(group, c);
    OneMoreFactor(group, group + [c], doubt);
  }

  /* ---- attributes ---- */

  /** The first value stated for each key. */
  function Stated(group: seq<Cue>): map<string, string> {
    if group == [] then map[] else group[|group| - 1].attributes + Stated(group[..|group| - 1])
  }

  predicate Clash(before: map<string, string>, c: Cue, k: string) {
    k in c.attributes && k in before && before[k] != c.attributes[k]
  }

  /** The keys on which some cue differs from the first to state them. */
  function Conflicted(group: seq<Cue>): set<string> {
    if group == [] then {} else
      var before, c := Stated(group[..|group| - 1]), group[|group| - 1];
      Conflicted(group[..|group| - 1]) + set k | k in c.attributes && Clash(before, c, k)
  }

  predicate StatesAt(group: seq<Cue>, i: int, k: string, v: string) {
    0 <= i < |group| && k in group[i].attributes && group[i].attributes[k] == v
  }

  lemma {:induction false} StatedIsSomeones(group: seq<Cue>, k: string)
    ensures k in Stated(group) ==> exists i :: StatesAt(group, i, k, Stated(group)[k])
    ensures forall i :: 0 <= i < |group| && k in group[i].attributes ==> k in Stated(group)
  {
    if group != [] {
      var init := group[..|group| - 1];
      StatedIsSomeones(init, k);
      if k in Stated(init) {
        var i :| StatesAt(init, i, k, Stated(init)[k]);
        assert StatesAt(group, i, k, Stated(group)[k]);
      } else if k in Stated(group) {
        assert StatesAt(group, |group| - 1, k, Stated(group)[k]);
      }
      assert forall i :: 0 <= i < |init| ==> init[i] == group[i];
    }
  }

  lemma {:induction false} ConflictMeansDisagreement(group: seq<Cue>, k: string)
    ensures k in Conflicted(group) ==> k in Stated(group)
    ensures k in Conflicted(group) <==>
              exists i :: 0 <= i < |group| && k in group[i].attributes && k in Stated(group) &&
                  group[i].attributes[k] != Stated(group)[k]
  {
    if group != [] {
      var init, last := group[..|group| - 1], |group| - 1;
      ConflictMeansDisagreement(init, k);
      StatedIsSomeones(init, k);
      assert forall i :: 0 <= i < |init| ==> init[i] == group[i];
      if k in Conflicted(init) {
        var i :| 0 <= i < |init| && k in init[i].attributes && k in Stated(init) &&
            init[i].attributes[k] != Stated(init)[k];
        assert group[i].attributes[k] != Stated(group)[k];
      } else if k in Conflicted(group) {
        assert group[last].attributes[k] != Stated(group)[k];
      }
    }
  }

  function Attributes(group: seq<Cue>): map<string, string> {
    Stated(group) - Conflicted(group)
  }

  ghost predicate AllAgree(group: seq<Cue>, k: string, v: string) {
    && (exists i :: StatesAt(group, i, k, v))
    && (forall i :: 0 <= i < |group| && k in group[i].attributes ==> group[i].attributes[k] == v)
  }

  /** A key survives with a value exactly when some cue states it and no stating cue differs. */
  lemma KeySurvivesIffAllAgree(group: seq<Cue>, k: string, v: string)
    ensures At(Attributes(group), k) == Some(v) <==> AllAgree(group, k, v)
  {
    StatedIsSomeones(group, k);
    ConflictMeansDisagreement(group, k);
    if k in Stated(group) {
      var i :| StatesAt(group, i, k, Stated(group)[k]);
      assert AllAgree(group, k, v) ==> Stated(group)[k] == v;
    }
  }

  /** What is known of one key while a cue's items are still `todo`. */
  predicate KeyDone(attributes: map<string, string>, conflicted: set<string>, c: Cue, todo: set<string>,
                    more: map<string, string>, clashes: set<string>, k: string) {
    var taken := k in c.attributes && k !in todo;
    && (k in more <==> k in attributes || taken)
    && (k in more ==> more[k] == if k in attributes then attributes[k] else c.attributes[k])
    && (k in clashes <==> k in conflicted || (taken && Clash(attributes, c, k)))
  }

  /** One cue's items: a key not seen is set, a key seen with another value is in conflict. */
  method Absorb(attributes: map<string, string>, conflicted: set<string>, c: Cue)
    returns (more: map<string, string>, clashes: set<string>)
    ensures more == c.attributes + attributes
    ensures clashes == conflicted + set k | k in c.attributes && Clash(attributes, c, k)
  {
    more, clashes := attributes, conflicted;
    var todo := c.attributes.Keys;
    while todo != {}
      invariant todo <= c.attributes.Keys
      invariant forall k :: KeyDone(attributes, conflicted, c, todo, more, clashes, k)
      decreases |todo|
    {
      ghost var todo0, more0, clashes0 := todo, more, clashes;
      var k :| k in todo;
      var value := c.attributes[k];
      todo := todo - {k};
      assert KeyDone(attributes, conflicted, c, todo0, more0, clashes0, k);
      if k !in more {
        more := more[k := value];
      }
      if more[k] != value {
        clashes := clashes + {k};
      }
      forall x ensures KeyDone(attributes, conflicted, c, todo, more, clashes, x) {
        assert KeyDone(attributes, conflicted, c, todo0, more0, clashes0, x);
      }
    }
    AllKeysDone(attributes, conflicted, c, more, clashes);
  }

  lemma AllKeysDone(attributes: map<string, string>, conflicted: set<string>, c: Cue, more: map<string, string>,
                    clashes: set<string>)
    requires forall k :: KeyDone(attributes, conflicted, c, {}, more, clashes, k)
    ensures more == c.attributes + attributes
    ensures clashes == conflicted + set k | k in c.attributes && Clash(attributes, c, k)
  {
    forall k ensures (k in more <==> k in c.attributes + attributes) &&
        (k in more ==> more[k] == (c.attributes + attributes)[k]) {
      assert KeyDone(attributes, conflicted, c, {}, more, clashes, k);
    }
    forall k ensures k in clashes <==> k in conflicted || Clash(attributes, c, k) {
      assert KeyDone(attributes, conflicted, c, {}, more, clashes, k);
    }
  }

  /* ---- the rest of a merge ---- */

  /** dict.fromkeys: the first of each, in order. */
  function Unique(s: seq<string>): (r: seq<string>)
    ensures Distinct(r) && forall x :: x in r <==> x in s
  {
    if s == [] then [] else
      var r, last := Unique(s[..|s| - 1]), s[|s| - 1];
      assert s == s[..|s| - 1] + [last];
      if last in r then r else r + [last]
  }

  function Named(group: seq<Cue>): seq<string> {
    if group == [] then [] else Named(group[..|group| - 1]) + group[|group| - 1].entities
  }

  /** The first of the longest texts. */
  function RichestText(group: seq<Cue>): (t: string)
    requires group != []
    ensures exists i :: 0 <= i < |group| && group[i].text == t && forall j :: 0 <= j < i ==> |group[j].text| < |t|
    ensures forall j :: 0 <= j < |group| ==> |group[j].text| <= |t|
  {
    if |group| == 1 then group[0].text
    else
      var t := RichestText(group[..|group| - 1]);
      var last := group[|group| - 1].text;
      assert forall j :: 0 <= j < |group| - 1 ==> group[j] == group[..|group| - 1][j];
      if |t| < |last| then last else t
  }

  /** Python's order of strings. */
  predicate StringLeq(a: string, b: string) {
    a == "" || (b != "" && (a[0] < b[0] || (a[0] == b[0] && StringLeq(a[1..], b[1..]))))
  }

  lemma {:induction false} StringLeqIsTotal(a: string, b: string)
    ensures StringLeq(a, b) || StringLeq(b, a)
  {
    if a != "" && b != "" && a[0] == b[0] {
      StringLeqIsTotal(a[1..], b[1..]);
    }
  }

  lemma {:induction false} StringLeqIsTransitive(a: string, b: string, c: string)
    requires StringLeq(a, b) && StringLeq(b, c)
    ensures StringLeq(a, c)
  {
    if a != "" && a[0] == b[0] == c[0] {
      StringLeqIsTransitive(a[1..], b[1..], c[1..]);
    }
  }

  function InsertString(x: string, s: seq<string>): seq<string> {
    if s == [] || StringLeq(x, s[0]) then [x] + s else [s[0]] + InsertString(x, s[1..])
  }

  /** sorted, on strings. */
  function SortStrings(s: seq<string>): seq<string> {
    if s == [] then [] else InsertString(s[0], SortStrings(s[1..]))
  }

  predicate StringsSorted(s: seq<string>) {
    forall i :: 0 < i < |s| ==> StringLeq(s[i - 1], s[i])
  }

  lemma {:induction false} InsertStringSorts(x: string, s: seq<string>)
    requires StringsSorted(s)
    ensures StringsSorted(InsertString(x, s)) && multiset(InsertString(x, s)) == multiset(s) + multiset{x}
    ensures InsertString(x, s)[0] in {x} + if s == [] then {} else {s[0]}
  {
    if s == [] || StringLeq(x, s[0]) {
      var r := [x] + s;
      forall i | 0 < i < |r| ensures StringLeq(r[i - 1], r[i]) {
        assert i > 1 ==> r[i - 1] == s[i - 2] && r[i] == s[i - 1];
      }
    } else {
      var more := InsertString(x, s[1..]);
      assert forall i :: 0 < i < |s[1..]| ==> s[1..][i - 1] == s[i] && s[1..][i] == s[i + 1];
      InsertStringSorts(x, s[1..]);
      StringLeqIsTotal(x, s[0]);
      var r := [s[0]] + more;
      assert StringLeq(s[0], more[0]);
      forall i | 0 < i < |r| ensures StringLeq(r[i - 1], r[i]) {
        assert i > 1 ==> r[i - 1] == more[i - 2] && r[i] == more[i - 1];
      }
      assert s == [s[0]] + s[1..];
    }
  }

  /** The sources of an annotation are sorted, and are exactly the group's, each once. */
  lemma {:induction false} SortStringsSorts(s: seq<string>)
    ensures StringsSorted(SortStrings(s)) && multiset(SortStrings(s)) == multiset(s)
  {
    if s != [] {
      SortStringsSorts(s[1..]);
      InsertStringSorts(s[0], SortStrings(s[1..]));
      assert s == [s[0]] + s[1..];
    }
  }

  lemma MergedSources(group: seq<Cue>)
    ensures var sources := SortStrings(Sources(group));
            StringsSorted(sources) && forall x :: multiset(sources)[x] == if x in Best(group) then 1 else 0
  {
    SortStringsSorts(Sources(group));
    SourcesAreDistinct(group);
    forall x ensures multiset(Sources(group))[x] == if x in Best(group) then 1 else 0 {
      DistinctOnce(Sources(group), x);
    }
  }

  lemma {:induction false} DistinctOnce(s: seq<string>, x: string)
    requires Distinct(s)
    ensures multiset(s)[x] == if x in s then 1 else 0
  {
    if s != [] {
      DistinctOnce(s[1..], x);
      assert s == [s[0]] + s[1..];
    }
  }

  /** A string is no later than another exactly when it begins it or has the smaller first different character. */
  lemma {:induction false} StringLeqIs(a: string, b: string)
    ensures StringLeq(a, b) <==> a <= b || Differs(a, b)
  {
    if a != "" && b != "" && a[0] == b[0] {
      StringLeqIs(a[1..], b[1..]);
      assert a <= b <==> a[1..] <= b[1..];
      if Differs(a[1..], b[1..]) {
        var i :| 0 <= i < |a[1..]| && i < |b[1..]| && a[1..][..i] == b[1..][..i] && a[1..][i] < b[1..][i];
        assert a[..i + 1] == [a[0]] + a[1..][..i] && b[..i + 1] == [b[0]] + b[1..][..i];
        assert a[i + 1] < b[i + 1];
      }
      if Differs(a, b) {
        var i :| 0 <= i < |a| && i < |b| && a[..i] == b[..i] && a[i] < b[i];
        assert a[1..][..i - 1] == a[..i][1..] && b[1..][..i - 1] == b[..i][1..];
        assert a[1..][i - 1] < b[1..][i - 1];
      }
    } else if a != "" && b != "" {
      assert a[..0] == b[..0];
      assert a[0] < b[0] ==> Differs(a, b);
      forall i | 0 < i < |a| && i < |b| ensures a[..i] != b[..i] {
        assert a[..i][0] != b[..i][0];
      }
    }
  }

  /** At the first place where they differ `a` has the smaller character. */
  ghost predicate Differs(a: string, b: string) {
    exists i :: 0 <= i < |a| && i < |b| && a[..i] == b[..i] && a[i] < b[i]
  }

  lemma {:induction false} NamedAppend(a: seq<Cue>, b: seq<Cue>)
    ensures Named(a + b) == Named(a) + Named(b)
    decreases |b|
  {
    if b == [] {
      assert a + b == a;
    } else {
      assert (a + b)[..|a + b| - 1] == a + b[..|b| - 1];
      NamedAppend(a, b[..|b| - 1]);
    }
  }

  lemma {:induction false} NamedBy(group: seq<Cue>, e: string)
    ensures e in Named(group) <==> Bears(group, e)
  {
    if group != [] {
      var init, last := group[..|group| - 1], |group| - 1;
      NamedBy(init, e);
      if Bears(init, e) {
        var i :| 0 <= i < |init| && e in init[i].entities;
        assert e in group[i].entities;
      } else if Bears(group, e) {
        var i :| 0 <= i < |group| && e in group[i].entities;
        assert forall k :: 0 <= k < |init| ==> init[k] == group[k];
      }
      assert e in group[last].entities ==> Bears(group, e);
    }
  }

  lemma {:induction false} UniqueGrows(a: seq<string>, b: seq<string>)
    ensures Unique(a) <= Unique(a + b)
    decreases |b|
  {
    if b == [] {
      assert a + b == a;
    } else {
      assert (a + b)[..|a + b| - 1] == a + b[..|b| - 1];
      UniqueGrows(a, b[..|b| - 1]);
    }
  }

  /** The entities of an annotation: each that some cue names, once. */
  lemma EntitiesAreAllNamed(group: seq<Cue>, e: string)
    ensures Distinct(Unique(Named(group))) && (e in Unique(Named(group)) <==> Bears(group, e))
  {
    NamedBy(group, e);
  }

  /**
   And in order of first appearance: an entity that the `j`-th cue is the first to name, at
   place `q`, comes behind every entity named by an earlier cue or earlier by that one.
   */
  lemma EntitiesInOrder(group: seq<Cue>, j: nat, q: nat, e: string) returns (a: nat, b: nat)
    requires j < |group| && q < |group[j].entities|
    requires !Bears(group[..j], group[j].entities[q]) && group[j].entities[q] !in group[j].entities[..q]
    requires Bears(group[..j], e) || e in group[j].entities[..q]
    ensures var r := Unique(Named(group)); a < b < |r| && r[a] == e && r[b] == group[j].entities[q]
  {
    var f := group[j].entities[q];
    var front := Named(group[..j]) + group[j].entities[..q];
    NamedBy(group[..j], e);
    NamedBy(group[..j], f);
    FrontOfNamed(group, j, q);
    UniqueGrows(front, Named(group)[|front|..]);
    assert front + Named(group)[|front|..] == Named(group);
    var r := Unique(Named(group));
    assert e in front && f !in front;
    assert e in Unique(front) && f !in Unique(front) && f in r;
    a :| 0 <= a < |Unique(front)| && Unique(front)[a] == e;
    b :| 0 <= b < |r| && r[b] == f;
    forall k | 0 <= k < |Unique(front)| ensures r[k] != f {
      assert r[k] == Unique(front)[k];
    }
  }

  lemma FrontOfNamed(group: seq<Cue>, j: nat, q: nat)
    requires j < |group| && q < |group[j].entities|
    ensures Named(group[..j]) + group[j].entities[..q] <= Named(group) && group[j].entities[q] in Named(group)
  {
    var c := group[j];
    assert group == group[..j] + ([c] + group[j + 1..]);
    NamedAppend(group[..j], [c] + group[j + 1..]);
    NamedAppend([c], group[j + 1..]);
    assert [c][..0] == [] && Named([c]) == [] + c.entities == c.entities;
    assert c.entities[..q] <= c.entities;
  }

  /**
   An annotation, field by field: the union of the time ranges, the first cue's event, every
   named entity once, the first of the longest texts, the rounded confidence, the sources in
   order, and the attributes all cues agree on.
   */
  lemma MergedIs(group: seq<Cue>, round: real -> real)
    requires group != []
    ensures var a := Merged(group, round);
            && (exists i :: 0 <= i < |group| && a.start == group[i].start)
            && (exists i :: 0 <= i < |group| && a.end == group[i].end)
            && (forall i :: 0 <= i < |group| ==> a.start <= group[i].start && group[i].end <= a.end)
            && a.event == group[0].event && a.confidence == round(Confidence(group))
            && Distinct(a.entities) && (forall e :: e in a.entities <==> Bears(group, e))
            && (exists i :: 0 <= i < |group| && group[i].text == a.text
                  && forall j :: 0 <= j < i ==> |group[j].text| < |a.text|)
            && (forall i :: 0 <= i < |group| ==> |group[i].text| <= |a.text|)
            && StringsSorted(a.sources) && a.entities == Unique(Named(group)) && a.attributes == Attributes(group)
  {
    forall e ensures e in Unique(Named(group)) <==> Bears(group, e) {
      EntitiesAreAllNamed(group, e);
    }
    MergedSources(group);
  }

  function Merged(group: seq<Cue>, round: real -> real): Annotation
    requires group != []
  {
    Annotation(MinStart(group), MaxEnd(group), group[0].event, Unique(Named(group)), RichestText(group),
               round(Confidence(group)), SortStrings(Sources(group)), Attributes(group))
  }

  lemma Longer(group: seq<Cue>, n: nat)
    requires n < |group|
    ensures group[..n + 1][..n] == group[..n] && group[..n + 1][n] == group[n]
  {}

  /** The best-per-source loop. */
  method BestPerSource(group: seq<Cue>) returns (sources: seq<string>, best: map<string, real>)
    ensures sources == Sources(group) && best == Best(group)
  {
    best := map[];
    sources := [];
    for n := 0 to |group|
      invariant best == Best(group[..n]) && sources == Sources(group[..n])
    {
      Longer(group, n);
      var c := group[n];
      if c.source !in sources {
        sources := sources + [c.source];
      }
      best := best[c.source := Max(if c.source in best then best[c.source] else 0.0, c.confidence)];
    }
    assert group[..|group|] == group;
  }

  lemma NextFactor(ps: seq<real>, n: nat)
    requires n < |ps|
    ensures Product(ps[..n + 1]) == Product(ps[..n]) * ps[n]
  {
    assert ps[..n + 1][..n] == ps[..n];
  }

  /** The product over the sources. */
  method MissOfAll(sources: seq<string>, best: map<string, real>) returns (miss: real)
    requires Keyed(sources, best)
    ensures miss == Product(Doubts(sources, best))
  {
    ghost var doubts := Doubts(sources, best);
    miss := 1.0;
    for n := 0 to |sources|
      invariant miss == Product(doubts[..n])
    {
      DoubtAt(sources, best, n);
      NextFactor(doubts, n);
      var doubt := 1.0 - best[sources[n]];
      assert doubt == doubts[n];
      miss := miss * doubt;
    }
    assert doubts[..|sources|] == doubts;
  }

  method NoisyOr(group: seq<Cue>) returns (sources: seq<string>, confidence: real)
    ensures sources == Sources(group) && confidence == Confidence(group)
  {
    var best;
    sources, best := BestPerSource(group);
    var miss := MissOfAll(sources, best);
    confidence := 1.0 - miss;
  }

  method MergeAttributes(group: seq<Cue>) returns (attributes: map<string, string>)
    ensures attributes == Attributes(group)
  {
    attributes := map[];
    var conflicted: set<string> := {};
    for n := 0 to |group|
      invariant attributes == Stated(group[..n]) && conflicted == Conflicted(group[..n])
    {
      Longer(group, n);
      attributes, conflicted := Absorb(attributes, conflicted, group[n]);
    }
    assert group[..|group|] == group;
    attributes := attributes - conflicted;
  }

  /** _merge. */
  method Merge(group: seq<Cue>, round: real -> real) returns (a: Annotation)
    requires group != []
    ensures a == Merged(group, round)
  {
    var sources, confidence := NoisyOr(group);
    var attributes := MergeAttributes(group);
    a := Annotation(MinStart(group), MaxEnd(group), group[0].event, Unique(Named(group)), RichestText(group),
                    round(confidence), SortStrings(sources), attributes);
  }

  /* ---- fuse ---- */

  function AnnotationKey(a: Annotation): (real, real) { (a.start, a.end) }

  /** The merged groups whose rounded confidence reaches the floor. */
  function Kept(groups: seq<seq<Cue>>, floor: real, round: real -> real): seq<Annotation>
    requires NonEmpty(groups)
  {
    if groups == [] then [] else
      var a := Merged(groups[|groups| - 1], round);
      Kept(groups[..|groups| - 1], floor, round) + if a.confidence >= floor then [a] else []
  }

  /** What is kept are the merged groups at or above the floor, each once. */
  lemma {:induction false} KeptIsAboveTheFloor(groups: seq<seq<Cue>>, floor: real, round: real -> real, a: Annotation)
    requires NonEmpty(groups)
    ensures multiset(Kept(groups, floor, round))[a] ==
            if a.confidence >= floor
            then |Where(groups, (g: seq<Cue>) => g != [] && Merged(g, round) == a)| else 0
  {
    if groups != [] {
      var init, last := groups[..|groups| - 1], groups[|groups| - 1];
      KeptIsAboveTheFloor(init, floor, round, a);
      WhereGrows(groups, (g: seq<Cue>) => g != [] && Merged(g, round) == a);
    }
  }

  lemma KeptNext(groups: seq<seq<Cue>>, n: nat, floor: real, round: real -> real)
    requires NonEmpty(groups) && n < |groups|
    ensures Kept(groups[..n + 1], floor, round)
         == Kept(groups[..n], floor, round) + if Merged(groups[n], round).confidence >= floor
            then [Merged(groups[n], round)] else []
  {
    assert groups[..n + 1][..n] == groups[..n];
  }

  /** The merging loop of fuse. */
  method MergeGroups(groups: seq<seq<Cue>>, floor: real, round: real -> real) returns (out: seq<Annotation>)
    requires NonEmpty(groups)
    ensures out == Kept(groups, floor, round)
  {
    out := [];
    for n := 0 to |groups|
      invariant out == Kept(groups[..n], floor, round)
    {
      KeptNext(groups, n, floor, round);
      var a := Merge(groups[n], round);
      if a.confidence >= floor {
        out := out + [a];
      }
    }
    assert groups[..|groups|] == groups;
  }

  /** fuse. */
  method Fuse(cues: seq<Cue>, floor: real, r: Reading, round: real -> real)
    returns (out: seq<Annotation>, ghost groups: seq<seq<Cue>>)
    requires CuesOk(cues)
    ensures AllCues(groups) == multiset(cues)
    ensures forall j :: 0 <= j < |groups| ==> GroupOk(groups[j], r)
    ensures groups == Grouped(SortBy(cues, CueKey), r)
    ensures out == SortBy(Kept(groups, floor, round), AnnotationKey)
    ensures multiset(out) == multiset(Kept(groups, floor, round))
    ensures SortedBy(out, AnnotationKey)
    ensures forall i, j :: 0 <= i < j < |out| ==>
              out[i].start < out[j].start || (out[i].start == out[j].start && out[i].end <= out[j].end)
  {
    var grouped := GroupCues(SortBy(cues, CueKey), r);
    groups := grouped;
    FusedGroups(cues, r);
    var merged := MergeGroups(grouped, floor, round);
    SortKeeps(merged, AnnotationKey);
    SortSorts(merged, AnnotationKey);
    out := SortBy(merged, AnnotationKey);
  }

  /** The groups of any list of cues partition it and are each held together. */
  lemma FusedGroups(cues: seq<Cue>, r: Reading)
    requires CuesOk(cues)
    ensures var groups := Grouped(SortBy(cues, CueKey), r);
            AllCues(groups) == multiset(cues) && forall j :: 0 <= j < |groups| ==> GroupOk(groups[j], r)
  {
    var ordered := SortBy(cues, CueKey);
    SortKeeps(cues, CueKey);
    SortSorts(cues, CueKey);
    SortedStaysOk(cues, ordered);
    GroupsPartitionTheCues(ordered, r);
    GroupsAreChained(ordered, r);
  }

  lemma SortedStaysOk(cues: seq<Cue>, ordered: seq<Cue>)
    requires CuesOk(cues) && multiset(ordered) == multiset(cues)
    ensures CuesOk(ordered)
  {
    forall i | 0 <= i < |ordered| ensures CueOk(ordered[i]) {
      assert ordered[i] in multiset(cues);
    }
  }
}
