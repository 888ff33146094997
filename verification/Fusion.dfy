/**
 Fusing recognizer cues into annotations: stable sorting, first-fit grouping, and the merge
 of one group. Floats are reals; text overlap, white space and rounding are parameters.
 */
module Fusion {
  import opened Prelude

  const GAP := 2.0
  const SIMILAR := 0.5

  datatype Cue = Cue(source: string, start: real, end: real, event: string, entities: seq<string>,
                     confidence: real, text: string, attributes: map<string, string>)

  /** What the source's constructor enforces. */
  predicate CueOk(c: Cue) {
    c.start <= c.end && 0.0 <= c.confidence <= 1.0
  }

  predicate CuesOk(cues: seq<Cue>) {
    forall i :: 0 <= i < |cues| ==> CueOk(cues[i])
  }

  /** How much two texts overlap, and which texts hold only white space. */
  datatype Reading = Reading(overlap: (string, string) -> real, blank: string -> bool)

  /* ---- stable sort by (start, end) ---- */

  predicate KeyLeq(a: (real, real), b: (real, real)) {
    a.0 < b.0 || (a.0 == b.0 && a.1 <= b.1)
  }

  function Insert<T>(x: T, s: seq<T>, key: T -> (real, real)): seq<T> {
    if s == [] then [x]
    else if KeyLeq(key(s[|s| - 1]), key(x)) then s + [x]
    else Insert(x, s[..|s| - 1], key) + [s[|s| - 1]]
  }

  /** Each element goes behind every earlier one with the same key. */
  function SortBy<T>(s: seq<T>, key: T -> (real, real)): seq<T> {
    if s == [] then [] else Insert(s[|s| - 1], SortBy(s[..|s| - 1], key), key)
  }

  predicate SortedBy<T(!new)>(s: seq<T>, key: T -> (real, real)) {
    forall i, j :: 0 <= i < j < |s| ==> KeyLeq(key(s[i]), key(s[j]))
  }

  lemma {:induction false} InsertKeeps<T>(x: T, s: seq<T>, key: T -> (real, real))
    ensures multiset(Insert(x, s, key)) == multiset(s) + multiset{x}
  {
    if s != [] && !KeyLeq(key(s[|s| - 1]), key(x)) {
      InsertKeeps(x, s[..|s| - 1], key);
      assert s == s[..|s| - 1] + [s[|s| - 1]];
    }
  }

  lemma {:induction false} InsertSorts<T(!new)>(x: T, s: seq<T>, key: T -> (real, real))
    requires SortedBy(s, key)
    ensures SortedBy(Insert(x, s, key), key)
  {
    if s != [] && !KeyLeq(key(s[|s| - 1]), key(x)) {
      var init := s[..|s| - 1];
      InsertSorts(x, init, key);
      InsertKeeps(x, init, key);
      var r := Insert(x, init, key);
      forall i | 0 <= i < |r| ensures KeyLeq(key(r[i]), key(s[|s| - 1])) {
        assert r[i] in multiset(r);
        assert r[i] in multiset(init) || r[i] == x;
      }
    }
  }

  lemma {:induction false} SortKeeps<T>(s: seq<T>, key: T -> (real, real))
    ensures multiset(SortBy(s, key)) == multiset(s)
  {
    if s != [] {
      var init, x := s[..|s| - 1], s[|s| - 1];
      SortKeeps(init, key);
      var sorted := SortBy(init, key);
      InsertKeeps(x, sorted, key);
      assert SortBy(s, key) == Insert(x, sorted, key);
      assert s == init + [x];
    }
  }

  lemma {:induction false} SortSorts<T(!new)>(s: seq<T>, key: T -> (real, real))
    ensures SortedBy(SortBy(s, key), key)
  {
    if s != [] {
      var init, x := s[..|s| - 1], s[|s| - 1];
      SortSorts(init, key);
      InsertSorts(x, SortBy(init, key), key);
    }
  }

  /** The elements with one key, in order. */
  function WithKey<T>(s: seq<T>, key: T -> (real, real), k: (real, real)): seq<T> {
    if s == [] then [] else WithKey(s[..|s| - 1], key, k) + if key(s[|s| - 1]) == k then [s[|s| - 1]] else []
  }

  lemma WithKeyAppend<T>(s: seq<T>, x: T, key: T -> (real, real), k: (real, real))
    ensures WithKey(s + [x], key, k) == WithKey(s, key, k) + if key(x) == k then [x] else []
  {
    assert (s + [x])[..|s + [x]| - 1] == s;
  }

  lemma {:induction false} InsertIsLast<T>(x: T, s: seq<T>, key: T -> (real, real), k: (real, real))
    ensures WithKey(Insert(x, s, key), key, k) == WithKey(s, key, k) + if key(x) == k then [x] else []
  {
    WithKeyAppend(s, x, key, k);
    if s == [] {
      assert s + [x] == [x];
    } else if !KeyLeq(key(s[|s| - 1]), key(x)) {
      var init, last := s[..|s| - 1], s[|s| - 1];
      InsertIsLast(x, init, key, k);
      WithKeyAppend(Insert(x, init, key), last, key, k);
      var own := if key(x) == k then [x] else [];
      var lasts := if key(last) == k then [last] else [];
      assert key(last) != key(x);
      assert WithKey(init, key, k) + own + lasts == WithKey(init, key, k) + lasts + own;
    }
  }

  /** The sort is stable: elements with equal keys keep their order. */
  lemma {:induction false} SortIsStable<T>(s: seq<T>, key: T -> (real, real), k: (real, real))
    ensures WithKey(SortBy(s, key), key, k) == WithKey(s, key, k)
  {
    if s != [] {
      SortIsStable(s[..|s| - 1], key, k);
      InsertIsLast(s[|s| - 1], SortBy(s[..|s| - 1], key), key, k);
    }
  }

  function CueKey(c: Cue): (real, real) { (c.start, c.end) }

  /* ---- which group a cue belongs to ---- */

  function Entities(group: seq<Cue>): set<string> {
    if group == [] then {} else Entities(group[..|group| - 1]) + EntitySet(group[|group| - 1])
  }

  function EntitySet(c: Cue): set<string> {
    set e | e in c.entities
  }

  function MinStart(group: seq<Cue>): (m: real)
    requires group != []
    ensures exists i :: 0 <= i < |group| && group[i].start == m
    ensures forall i :: 0 <= i < |group| ==> m <= group[i].start
  {
    if |group| == 1 then group[0].start
    else
      var m := MinStart(group[..|group| - 1]);
      var last := group[|group| - 1].start;
      if last < m then last else m
  }

  function MaxEnd(group: seq<Cue>): (m: real)
    requires group != []
    ensures exists i :: 0 <= i < |group| && group[i].end == m
    ensures forall i :: 0 <= i < |group| ==> group[i].end <= m
  {
    if |group| == 1 then group[0].end
    else
      var m := MaxEnd(group[..|group| - 1]);
      var last := group[|group| - 1].end;
      if m < last then last else m
  }

  /** _same_claim_by_text. */
  predicate SameClaimByText(group: seq<Cue>, c: Cue, r: Reading) {
    if c.entities != [] || Entities(group) != {} || r.blank(c.text) then true
    else
      (forall i :: 0 <= i < |group| ==> r.blank(group[i].text)) ||
      exists i :: 0 <= i < |group| && !r.blank(group[i].text) && r.overlap(group[i].text, c.text) >= SIMILAR
  }

  /** _belongs. */
  predicate Belongs(group: seq<Cue>, c: Cue, r: Reading)
    requires group != []
  {
    if exists i :: 0 <= i < |group| && group[i].event != c.event then false
    else if c.entities != [] && Entities(group) != {} && Entities(group) * EntitySet(c) == {} then false
    else if !SameClaimByText(group, c, r) then false
    else c.start <= MaxEnd(group) + GAP && c.end >= MinStart(group) - GAP
  }

  /** Some cue of the group names the entity. */
  predicate Bears(group: seq<Cue>, e: string) {
    exists i :: 0 <= i < |group| && e in group[i].entities
  }

  lemma {:induction false} EntityHasABearer(group: seq<Cue>, e: string) returns (i: nat)
    requires e in Entities(group)
    ensures i < |group| && e in group[i].entities
  {
    var init := group[..|group| - 1];
    if e in EntitySet(group[|group| - 1]) {
      i := |group| - 1;
    } else {
      i := EntityHasABearer(init, e);
      assert init[i] == group[i];
    }
  }

  lemma {:induction false} BearerNamesEntity(group: seq<Cue>, i: nat, e: string)
    requires i < |group| && e in group[i].entities
    ensures e in Entities(group)
  {
    var init := group[..|group| - 1];
    if i < |init| {
      assert init[i] == group[i];
      BearerNamesEntity(init, i, e);
    }
  }

  lemma EntitiesAreBorne(group: seq<Cue>, e: string)
    ensures e in Entities(group) <==> Bears(group, e)
  {
    if e in Entities(group) {
      var i := EntityHasABearer(group, e);
    } else if Bears(group, e) {
      var i :| 0 <= i < |group| && e in group[i].entities;
      BearerNamesEntity(group, i, e);
    }
  }

  lemma NobodyIsNamed(group: seq<Cue>)
    ensures Entities(group) == {} <==> forall i :: 0 <= i < |group| ==> group[i].entities == []
  {
    forall i | 0 <= i < |group| && group[i].entities != [] ensures Entities(group) != {} {
      BearerNamesEntity(group, i, group[i].entities[0]);
    }
    if Entities(group) != {} {
      var e :| e in Entities(group);
      var i := EntityHasABearer(group, e);
    }
  }

  lemma EntitiesMeet(group: seq<Cue>, c: Cue)
    ensures Entities(group) * EntitySet(c) != {} <==> exists e :: e in c.entities && Bears(group, e)
  {
    forall e | e in c.entities && Bears(group, e) ensures e in Entities(group) * EntitySet(c) {
      EntitiesAreBorne(group, e);
    }
    if Entities(group) * EntitySet(c) != {} {
      var e :| e in Entities(group) * EntitySet(c);
      EntitiesAreBorne(group, e);
    }
  }

  /**
   The cue makes the claim of the cues before it: they all have its event; one of them shares
   an entity with it, or they or it name nobody; where nobody is named at all and both sides
   have text, some text of theirs overlaps its text at least half; and it starts at most two
   seconds after the end of one of them and ends at most two seconds before the start of one.
   */
  ghost predicate SameClaim(before: seq<Cue>, c: Cue, r: Reading) {
    && (forall i :: 0 <= i < |before| ==> before[i].event == c.event)
    && (c.entities == [] || (forall i :: 0 <= i < |before| ==> before[i].entities == [])
        || exists e :: e in c.entities && Bears(before, e))
    && (c.entities != [] || (exists i :: 0 <= i < |before| && before[i].entities != [])
        || r.blank(c.text) || (forall i :: 0 <= i < |before| ==> r.blank(before[i].text))
        || exists i :: 0 <= i < |before| && !r.blank(before[i].text) && r.overlap(before[i].text, c.text) >= 0.5)
    && (exists i :: 0 <= i < |before| && c.start <= before[i].end + 2.0)
    && (exists i :: 0 <= i < |before| && c.end >= before[i].start - 2.0)
  }

  /** A group takes exactly the cues that make its claim. */
  lemma BelongsIff(group: seq<Cue>, c: Cue, r: Reading)
    requires group != []
    ensures Belongs(group, c, r) <==> SameClaim(group, c, r)
  {
    NobodyIsNamed(group);
    EntitiesMeet(group, c);
    TimesMeet(group, c);
  }

  lemma TimesMeet(group: seq<Cue>, c: Cue)
    requires group != []
    ensures c.start <= MaxEnd(group) + 2.0 <==> exists i :: 0 <= i < |group| && c.start <= group[i].end + 2.0
    ensures c.end >= MinStart(group) - 2.0 <==> exists i :: 0 <= i < |group| && c.end >= group[i].start - 2.0
  {
    var i :| 0 <= i < |group| && group[i].end == MaxEnd(group);
    var j :| 0 <= j < |group| && group[j].start == MinStart(group);
  }

  predicate NonEmpty(groups: seq<seq<Cue>>) {
    forall j :: 0 <= j < |groups| ==> groups[j] != []
  }

  /** The first group that takes the cue, or |groups|. */
  function FirstFit(groups: seq<seq<Cue>>, c: Cue, r: Reading): (j: nat)
    requires NonEmpty(groups)
    ensures j <= |groups|
    ensures forall i :: 0 <= i < j ==> !Belongs(groups[i], c, r)
    ensures j < |groups| ==> Belongs(groups[j], c, r)
  {
    if groups == [] || Belongs(groups[0], c, r) then 0
    else
      var j := FirstFit(groups[1..], c, r);
      assert forall i :: 0 < i <= j ==> groups[i] == groups[1..][i - 1] || i == j;
      j + 1
  }

  function Place(groups: seq<seq<Cue>>, c: Cue, r: Reading): (after: seq<seq<Cue>>)
    requires NonEmpty(groups)
    ensures NonEmpty(after)
  {
    var j := FirstFit(groups, c, r);
    if j == |groups| then groups + [[c]] else groups[j := groups[j] + [c]]
  }

  function Grouped(cues: seq<Cue>, r: Reading): (groups: seq<seq<Cue>>)
    ensures NonEmpty(groups)
  {
    if cues == [] then [] else Place(Grouped(cues[..|cues| - 1], r), cues[|cues| - 1], r)
  }

  lemma FirstFitIs(groups: seq<seq<Cue>>, c: Cue, r: Reading, j: nat)
    requires NonEmpty(groups) && j <= |groups|
    requires forall i :: 0 <= i < j ==> !Belongs(groups[i], c, r)
    requires j < |groups| ==> Belongs(groups[j], c, r)
    ensures j == FirstFit(groups, c, r)
  {}

  lemma GroupedNext(cues: seq<Cue>, n: nat, r: Reading)
    requires n < |cues|
    ensures Grouped(cues[..n + 1], r) == Place(Grouped(cues[..n], r), cues[n], r)
  {
    assert cues[..n + 1][..n] == cues[..n];
  }

  /** The search for the first group that takes the cue. */
  method FindGroup(groups: seq<seq<Cue>>, cue: Cue, r: Reading) returns (j: nat)
    requires NonEmpty(groups)
    ensures j == FirstFit(groups, cue, r)
  {
    j := 0;
    while j < |groups| && !Belongs(groups[j], cue, r)
      invariant j <= |groups|
      invariant forall i :: 0 <= i < j ==> !Belongs(groups[i], cue, r)
    {
      j := j + 1;
    }
    FirstFitIs(groups, cue, r, j);
  }

  /** The grouping loop of fuse. */
  method GroupCues(cues: seq<Cue>, r: Reading) returns (groups: seq<seq<Cue>>)
    ensures groups == Grouped(cues, r)
  {
    groups := [];
    for n := 0 to |cues|
      invariant groups == Grouped(cues[..n], r)
    {
      var cue := cues[n];
      var j := FindGroup(groups, cue, r);
      GroupedNext(cues, n, r);
      if j == |groups| {
        groups := groups + [[cue]];
      } else {
        groups := groups[j := groups[j] + [cue]];
      }
    }
    assert cues[..|cues|] == cues;
  }

  /**
   First fit, step by step: of the groups that stand when a cue is taken, the first that takes
   it grows by it, every group before that one refuses it, and the others stay; a cue that all
   of them refuse starts a group of its own.
   */
  lemma CuesGoToTheFirstFit(cues: seq<Cue>, n: nat, r: Reading) returns (j: nat)
    requires n < |cues|
    ensures var stood, after := Grouped(cues[..n], r), Grouped(cues[..n + 1], r);
            && j <= |stood| <= |after| && NonEmpty(stood)
            && (forall i :: 0 <= i < j ==> !SameClaim(stood[i], cues[n], r) && after[i] == stood[i])
            && (if j < |stood| then
                  && SameClaim(stood[j], cues[n], r) && |after| == |stood|
                  && after[j] == stood[j] + [cues[n]]
                  && forall i :: j < i < |stood| ==> after[i] == stood[i]
                else after == stood + [[cues[n]]])
  {
    GroupedNext(cues, n, r);
    var stood := Grouped(cues[..n], r);
    j := FirstFit(stood, cues[n], r);
    forall i | 0 <= i < |stood| ensures Belongs(stood[i], cues[n], r) <==> SameClaim(stood[i], cues[n], r) {
      BelongsIff(stood[i], cues[n], r);
    }
  }

  /** Groups only grow: each is, up to what came later, the group as it stood. */
  lemma {:induction false} GroupsOnlyGrow(cues: seq<Cue>, n: nat, r: Reading)
    requires n <= |cues|
    ensures var stood, groups := Grouped(cues[..n], r), Grouped(cues, r);
            |stood| <= |groups| && forall i :: 0 <= i < |stood| ==> stood[i] <= groups[i]
    decreases |cues| - n
  {
    if n == |cues| {
      assert cues[..n] == cues;
    } else {
      GroupedNext(cues, n, r);
      PlaceGrows(Grouped(cues[..n], r), cues[n], r);
      GroupsOnlyGrow(cues, n + 1, r);
    }
  }

  lemma PlaceGrows(groups: seq<seq<Cue>>, c: Cue, r: Reading)
    requires NonEmpty(groups)
    ensures |groups| <= |Place(groups, c, r)| && forall i :: 0 <= i < |groups| ==> groups[i] <= Place(groups, c, r)[i]
  {}

  /**
   No cue of the output could have gone to an earlier group: a cue at position `p` of group
   `j` was refused by every earlier group as that then stood, a nonempty front part of what
   it came to be.
   */
  lemma {:induction false} EarlierGroupsRefused(cues: seq<Cue>, r: Reading, i: nat, j: nat, p: nat) returns (m: nat)
    requires i < j < |Grouped(cues, r)| && p < |Grouped(cues, r)[j]|
    ensures 0 < m <= |Grouped(cues, r)[i]|
    ensures !SameClaim(Grouped(cues, r)[i][..m], Grouped(cues, r)[j][p], r)
  {
    var n := |cues| - 1;
    var init := cues[..n];
    assert cues[..n + 1] == cues;
    GroupedNext(cues, n, r);
    var stood, groups := Grouped(init, r), Grouped(cues, r);
    var k := FirstFit(stood, cues[n], r);
    if j < |stood| && p < |stood[j]| {
      m := EarlierGroupsRefused(init, r, i, j, p);
      assert groups[i][..m] == stood[i][..m] && groups[j][p] == stood[j][p];
    } else {
      m := |stood[i]|;
      assert groups[j][p] == cues[n] && groups[i] == stood[i] && groups[i][..m] == stood[i];
      BelongsIff(stood[i], cues[n], r);
    }
  }

  /* ---- what every group keeps ---- */

  function AllCues(groups: seq<seq<Cue>>): multiset<Cue> {
    if groups == [] then multiset{} else multiset(groups[0]) + AllCues(groups[1..])
  }

  lemma {:induction false} AllCuesAppend(groups: seq<seq<Cue>>, g: seq<Cue>)
    ensures AllCues(groups + [g]) == AllCues(groups) + multiset(g)
  {
    if groups == [] {
      assert groups + [g] == [g] && [g][1..] == [];
    } else {
      assert (groups + [g])[1..] == groups[1..] + [g];
      AllCuesAppend(groups[1..], g);
    }
  }

  lemma {:induction false} AllCuesUpdate(groups: seq<seq<Cue>>, j: nat, c: Cue)
    requires j < |groups|
    ensures AllCues(groups[j := groups[j] + [c]]) == AllCues(groups) + multiset{c}
  {
    var after := groups[j := groups[j] + [c]];
    if j == 0 {
      assert after[1..] == groups[1..];
    } else {
      assert after[1..] == groups[1..][j - 1 := groups[1..][j - 1] + [c]];
      AllCuesUpdate(groups[1..], j - 1, c);
    }
  }

  /** The groups partition the cues: every cue is in exactly one, and nothing is made up. */
  lemma {:induction false} GroupsPartitionTheCues(cues: seq<Cue>, r: Reading)
    ensures AllCues(Grouped(cues, r)) == multiset(cues)
  {
    if cues != [] {
      var init, c := cues[..|cues| - 1], cues[|cues| - 1];
      GroupsPartitionTheCues(init, r);
      var groups := Grouped(init, r);
      var j := FirstFit(groups, c, r);
      if j == |groups| {
        AllCuesAppend(groups, [c]);
      } else {
        AllCuesUpdate(groups, j, c);
      }
      assert cues == init + [c];
    }
  }

  ghost predicate Chained(group: seq<Cue>, r: Reading) {
    && group != []
    && forall i :: 0 < i < |group| ==> SameClaim(group[..i], group[i], r)
  }

  lemma ChainGrows(group: seq<Cue>, c: Cue, r: Reading)
    requires Chained(group, r) && SameClaim(group, c, r)
    ensures Chained(group + [c], r)
  {
    var after := group + [c];
    forall i | 0 < i < |after| ensures SameClaim(after[..i], after[i], r) {
      if i < |group| {
        assert after[..i] == group[..i];
      } else {
        assert after[..i] == group;
      }
    }
  }

  ghost predicate InOrder(group: seq<Cue>) {
    SortedBy(group, CueKey)
  }

  ghost predicate GroupOk(group: seq<Cue>, r: Reading) {
    Chained(group, r) && InOrder(group) && CuesOk(group)
  }

  predicate NoLater(group: seq<Cue>, c: Cue) {
    forall i :: 0 <= i < |group| ==> KeyLeq(CueKey(group[i]), CueKey(c))
  }

  lemma {:induction false} MembersAreCues(groups: seq<seq<Cue>>, j: nat, i: nat)
    requires j < |groups| && i < |groups[j]|
    ensures groups[j][i] in AllCues(groups)
  {
    if j > 0 {
      MembersAreCues(groups[1..], j - 1, i);
    }
  }

  lemma GroupIsNoLater(cues: seq<Cue>, c: Cue, r: Reading, j: nat)
    requires SortedBy(cues + [c], CueKey) && j < |Grouped(cues, r)|
    ensures NoLater(Grouped(cues, r)[j], c)
  {
    var group := Grouped(cues, r)[j];
    GroupsPartitionTheCues(cues, r);
    forall i | 0 <= i < |group| ensures KeyLeq(CueKey(group[i]), CueKey(c)) {
      MembersAreCues(Grouped(cues, r), j, i);
      var k :| 0 <= k < |cues| && cues[k] == group[i];
      assert (cues + [c])[k] == cues[k] && (cues + [c])[|cues|] == c;
    }
  }

  lemma GroupGrows(group: seq<Cue>, c: Cue, r: Reading)
    requires GroupOk(group, r) && Belongs(group, c, r) && NoLater(group, c) && CueOk(c)
    ensures GroupOk(group + [c], r)
  {
    BelongsIff(group, c, r);
    ChainGrows(group, c, r);
  }

  lemma PrefixOfSorted(cues: seq<Cue>)
    requires cues != [] && SortedBy(cues, CueKey) && CuesOk(cues)
    ensures var init := cues[..|cues| - 1]; SortedBy(init, CueKey) && CuesOk(init) && cues == init + [cues[|cues| - 1]]
  {}

  /** Every group stays in order and every member after the first was joined for a reason. */
  lemma {:induction false} GroupsAreChained(cues: seq<Cue>, r: Reading)
    requires SortedBy(cues, CueKey) && CuesOk(cues)
    ensures forall j :: 0 <= j < |Grouped(cues, r)| ==> GroupOk(Grouped(cues, r)[j], r)
  {
    if cues != [] {
      var init, c := cues[..|cues| - 1], cues[|cues| - 1];
      PrefixOfSorted(cues);
      GroupsAreChained(init, r);
      var groups := Grouped(init, r);
      var k := FirstFit(groups, c, r);
      if k < |groups| {
        GroupIsNoLater(init, c, r, k);
        GroupGrows(groups[k], c, r);
      } else {
        assert CueOk(c) && GroupOk([c], r);
      }
    }
  }

  lemma OneEvent(group: seq<Cue>, r: Reading, i: nat)
    requires Chained(group, r) && i < |group|
    ensures group[i].event == group[0].event
  {
    if i > 0 {
      assert SameClaim(group[..i], group[i], r);
      assert group[..i][0] == group[0];
    }
  }

  /** A cue that names entities shares one with an earlier cue, unless it is the first to name any. */
  lemma EntitiesConnect(group: seq<Cue>, r: Reading, k: nat, i: nat) returns (j: nat, e: string)
    requires Chained(group, r) && k < i < |group| && group[k].entities != [] && group[i].entities != []
    ensures j < i && e in group[i].entities && e in group[j].entities
  {
    var before := group[..i];
    assert SameClaim(before, group[i], r);
    assert before[k] == group[k];
    e :| e in group[i].entities && Bears(before, e);
    j :| 0 <= j < |before| && e in before[j].entities;
    assert before[j] == group[j];
  }

  /** The cue covers part of the stretch from `lo` to `hi`. */
  predicate Touches(c: Cue, lo: real, hi: real) {
    c.start <= hi && lo <= c.end
  }

  /** Some cue covers part of the stretch of the gap's length that starts at `lo`. */
  ghost predicate Met(group: seq<Cue>, lo: real) {
    exists i :: 0 <= i < |group| && Touches(group[i], lo, lo + GAP)
  }

  lemma MetByPrefix(group: seq<Cue>, n: nat, lo: real)
    requires n <= |group| && Met(group[..n], lo)
    ensures Met(group, lo)
  {
    var i :| 0 <= i < n && Touches(group[..n][i], lo, lo + GAP);
    assert Touches(group[i], lo, lo + GAP);
  }

  lemma MetByOne(c: Cue, lo: real)
    requires c.start <= lo && lo + GAP <= c.end
    ensures Met([c], lo)
  {
    assert Touches([c][0], lo, lo + GAP);
  }

  lemma LastTouches(group: seq<Cue>, r: Reading, lo: real)
    requires GroupOk(group, r) && |group| > 1
    requires var init := group[..|group| - 1]; MinStart(group) <= lo && MaxEnd(init) < lo + GAP <= MaxEnd(group)
    ensures Met(group, lo)
  {
    var last := |group| - 1;
    var init := group[..last];
    var k :| 0 <= k < |init| && init[k].end == MaxEnd(init);
    assert group[k] == init[k] && CueOk(group[k]) && group[last].end >= lo + GAP;
    if group[last].start <= lo + GAP {
      assert Touches(group[last], lo, lo + GAP);
    } else {
      assert SameClaim(init, group[last], r);
      assert Touches(group[k], lo, lo + GAP);
    }
  }

  /** Inside the range of a group, every stretch of the length of the gap meets one of its cues. */
  lemma {:induction false} NoHoleWiderThanGap(group: seq<Cue>, r: Reading, lo: real)
    requires GroupOk(group, r) && MinStart(group) <= lo && lo + GAP <= MaxEnd(group)
    ensures Met(group, lo)
  {
    var last := |group| - 1;
    var init := group[..last];
    if last == 0 {
      MetByOne(group[0], lo);
      assert group == [group[0]];
    } else if lo + GAP <= MaxEnd(init) {
      InitIsOk(group, r);
      NoHoleWiderThanGap(init, r, lo);
      MetByPrefix(group, last, lo);
    } else {
      LastTouches(group, r, lo);
    }
  }

  lemma LinkOfFront(group: seq<Cue>, r: Reading, n: nat, i: nat)
    requires Chained(group, r) && 0 < i < n <= |group|
    ensures SameClaim(group[..n][..i], group[..n][i], r)
  {
    assert group[..n][..i] == group[..i] && group[..n][i] == group[i];
  }

  lemma ChainedFront(group: seq<Cue>, r: Reading, n: nat)
    requires Chained(group, r) && 0 < n <= |group|
    ensures Chained(group[..n], r)
  {
    forall i | 0 < i < n ensures SameClaim(group[..n][..i], group[..n][i], r) {
      LinkOfFront(group, r, n, i);
    }
  }

  lemma InitIsOk(group: seq<Cue>, r: Reading)
    requires GroupOk(group, r) && |group| > 1
    ensures GroupOk(group[..|group| - 1], r) && MinStart(group[..|group| - 1]) == MinStart(group)
  {
    var init := group[..|group| - 1];
    ChainedFront(group, r, |group| - 1);
    var i :| 0 <= i < |init| && init[i].start == MinStart(init);
    assert KeyLeq(CueKey(group[i]), CueKey(group[|group| - 1]));
  }
}
