/** Selecting the context of a model call: merging retrieved items by identifier,
    reserving room for document summaries, and trimming to the budget. */
module ContextSelection {
  import opened Sequences

  datatype Item = Item(id: string, score: real, tokens: nat, isPassage: bool, isSummary: bool)

  const SUMMARY_RESERVE := 128

  predicate IsSourceSummary(x: Item) {
    x.isPassage && x.isSummary
  }

  predicate IsSourceChunk(x: Item) {
    x.isPassage && !x.isSummary
  }

  // ----- merging -----

  /** `by_id[item.id] = item` in a dictionary that remembers insertion order: a
      better-scored item takes the place of the one it replaces. */
  function Merge(merged: seq<Item>, x: Item): seq<Item> {
    if merged == [] then [x]
    else if merged[0].id == x.id then [if x.score > merged[0].score then x else merged[0]] + merged[1..]
    else [merged[0]] + Merge(merged[1..], x)
  }

  ghost predicate UniqueIds(s: seq<Item>) {
    forall i, j :: 0 <= i < j < |s| ==> s[i].id != s[j].id
  }

  /** Some item with x's identifier scores at least as well. */
  ghost predicate Covers(s: seq<Item>, x: Item) {
    exists y :: y in s && y.id == x.id && y.score >= x.score
  }

  ghost predicate MergeOf(merged: seq<Item>, items: seq<Item>) {
    && UniqueIds(merged)
    && (forall x :: x in merged ==> x in items)
    && forall x :: x in items ==> Covers(merged, x)
  }

  ghost predicate MergesInto(merged: seq<Item>, x: Item, result: seq<Item>) {
    && UniqueIds(result)
    && (forall y :: y in result ==> y in merged || y == x)
    && (forall z :: z in merged ==> Covers(result, z)) && Covers(result, x)
  }

  lemma CoversMore(rest: seq<Item>, y: Item, z: Item)
    requires Covers(rest, z)
    ensures Covers([y] + rest, z)
  {
    var m :| m in rest && m.id == z.id && m.score >= z.score;
    assert m in [y] + rest;
  }

  lemma CoversItself(s: seq<Item>, x: Item)
    requires x in s
    ensures Covers(s, x)
  {}

  lemma {:induction false} MergeIsRight(merged: seq<Item>, x: Item)
    requires UniqueIds(merged)
    ensures MergesInto(merged, x, Merge(merged, x))
  {
    if merged == [] {
      CoversItself([x], x);
    } else if merged[0].id == x.id {
      MergeReplaces(merged, x);
    } else {
      MergeIsRight(merged[1..], x);
      MergePrepends(merged, x, Merge(merged[1..], x));
    }
  }

  lemma MergeReplaces(merged: seq<Item>, x: Item)
    requires UniqueIds(merged) && merged != [] && merged[0].id == x.id
    ensures MergesInto(merged, x, [if x.score > merged[0].score then x else merged[0]] + merged[1..])
  {
    var kept := if x.score > merged[0].score then x else merged[0];
    var result := [kept] + merged[1..];
    assert result[0] == kept;
    forall z | z in merged ensures Covers(result, z) {
      if z != merged[0] {
        assert z in merged[1..];
        CoversItself(merged[1..], z);
        CoversMore(merged[1..], kept, z);
      }
    }
  }

  lemma MergePrepends(merged: seq<Item>, x: Item, rest: seq<Item>)
    requires UniqueIds(merged) && merged != [] && merged[0].id != x.id && MergesInto(merged[1..], x, rest)
    ensures MergesInto(merged, x, [merged[0]] + rest)
  {
    hide Covers;
    var result := [merged[0]] + rest;
    forall j | 0 <= j < |rest| ensures rest[j].id != merged[0].id {
      assert rest[j] in rest;
    }
    CoversMore(rest, merged[0], x);
    forall z | z in merged ensures Covers(result, z) {
      if z == merged[0] {
        CoversItself(result, z);
      } else {
        assert z in merged[1..];
        CoversMore(rest, merged[0], z);
      }
    }
  }

  /** `by_id` after all items. */
  function Merged(items: seq<Item>): seq<Item> {
    if items == [] then [] else Merge(Merged(items[..|items| - 1]), items[|items| - 1])
  }

  method MergeAll(items: seq<Item>) returns (merged: seq<Item>)
    ensures merged == Merged(items)
  {
    hide Merge;
    merged := [];
    for i := 0 to |items|
      invariant merged == Merged(items[..i])
    {
      assert items[..i + 1][..i] == items[..i];
      merged := Merge(merged, items[i]);
    }
    assert items[..|items|] == items;
  }

  /** One item per identifier that occurs, with the best score it occurs with. */
  lemma {:induction false} MergedProperties(items: seq<Item>)
    ensures MergeOf(Merged(items), items)
  {
    hide Merge, MergesInto;
    if items != [] {
      hide MergeOf;
      var k := |items| - 1;
      var front := items[..k];
      MergedProperties(front);
      MergedIsUnique(Merged(front), front);
      MergeIsRight(Merged(front), items[k]);
      MergeStep(Merged(front), front, items[k], Merged(items));
      assert front + [items[k]] == items;
    }
  }

  lemma MergedIsUnique(merged: seq<Item>, items: seq<Item>)
    requires MergeOf(merged, items)
    ensures UniqueIds(merged)
  {}

  lemma MergeStep(merged: seq<Item>, items: seq<Item>, x: Item, result: seq<Item>)
    requires MergeOf(merged, items) && MergesInto(merged, x, result)
    ensures MergeOf(result, items + [x])
  {
    hide UniqueIds, Covers;
    forall z | z in items + [x] ensures Covers(result, z) {
      if z != x {
        CoversThrough(merged, x, result, z);
      }
    }
  }

  lemma CoversThrough(merged: seq<Item>, x: Item, result: seq<Item>, z: Item)
    requires MergesInto(merged, x, result) && Covers(merged, z)
    ensures Covers(result, z)
  {
    var m :| m in merged && m.id == z.id && m.score >= z.score;
    assert Covers(result, m);
  }

  // ----- trimming -----

  function TotalTokens(s: seq<Item>): nat {
    if s == [] then 0 else TotalTokens(s[..|s| - 1]) + s[|s| - 1].tokens
  }

  /** The items kept when each is taken if it still fits. */
  function Trimmed(items: seq<Item>, budget: int): seq<Item> {
    if items == [] then []
    else
      var kept := Trimmed(items[..|items| - 1], budget);
      var x := items[|items| - 1];
      if TotalTokens(kept) + x.tokens > budget then kept else kept + [x]
  }

  lemma TrimStep(items: seq<Item>, budget: int, i: nat)
    requires i < |items|
    ensures var kept := Trimmed(items[..i], budget);
      Trimmed(items[..i + 1], budget)
        == if TotalTokens(kept) + items[i].tokens > budget then kept else kept + [items[i]]
  {
    assert items[..i + 1][..i] == items[..i];
  }

  lemma NothingTrimmed(items: seq<Item>, budget: int)
    ensures Trimmed(items[..0], budget) == [] && TotalTokens([]) == 0
  {}

  method Trim(items: seq<Item>, budget: int) returns (kept: seq<Item>)
    ensures kept == Trimmed(items, budget)
  {
    hide Trimmed, TotalTokens;
    kept := [];
    var total: nat := 0;
    NothingTrimmed(items, budget);
    for i := 0 to |items|
      invariant kept == Trimmed(items[..i], budget) && total == TotalTokens(kept)
    {
      var x := items[i];
      TrimStep(items, budget, i);
      if total + x.tokens > budget {
        continue;
      }
      TotalOfAppend(kept, x);
      total := total + x.tokens;
      kept := kept + [x];
    }
    assert items[..|items|] == items;
  }

  lemma TotalOfAppend(s: seq<Item>, x: Item)
    ensures TotalTokens(s + [x]) == TotalTokens(s) + x.tokens
  {
    assert (s + [x])[..|s|] == s;
  }

  /** The kept items fit the budget. */
  lemma {:induction false} TrimmedFits(items: seq<Item>, budget: int)
    ensures Trimmed(items, budget) == [] || TotalTokens(Trimmed(items, budget)) <= budget
    ensures forall x :: x in Trimmed(items, budget) ==> x in items
  {
    if items != [] {
      TrimmedFits(items[..|items| - 1], budget);
      TotalOfAppend(Trimmed(items[..|items| - 1], budget), items[|items| - 1]);
    }
  }

  /** A dropped item would not fit at the end either. */
  lemma {:induction false} DroppedDoesNotFit(items: seq<Item>, budget: int, x: Item)
    requires x in items && x !in Trimmed(items, budget)
    ensures TotalTokens(Trimmed(items, budget)) + x.tokens > budget
  {
    var k := |items| - 1;
    var kept := Trimmed(items[..k], budget);
    TotalOfAppend(kept, items[k]);
    if x != items[k] || x in items[..k] {
      DroppedDoesNotFit(items[..k], budget, x);
    }
  }

  /** Items that all fit together are kept, as a prefix, whatever follows. */
  lemma {:induction false} FittingPrefixSurvives(prefix: seq<Item>, rest: seq<Item>, budget: int)
    requires prefix == [] || TotalTokens(prefix) <= budget
    ensures prefix <= Trimmed(prefix + rest, budget)
  {
    if rest != [] {
      var k := |rest| - 1;
      assert (prefix + rest)[..|prefix + rest| - 1] == prefix + rest[..k];
      FittingPrefixSurvives(prefix, rest[..k], budget);
    } else {
      assert prefix + rest == prefix;
      FittingIsKept(prefix, budget);
    }
  }

  lemma {:induction false} FittingIsKept(s: seq<Item>, budget: int)
    requires s == [] || TotalTokens(s) <= budget
    ensures Trimmed(s, budget) == s
  {
    if s != [] {
      FittingIsKept(s[..|s| - 1], budget);
    }
  }

  // ----- ranking and the whole selection -----

  /** Sorted by (score, -tokens), reversed: best score first, then the smallest. */
  predicate Ranks(a: Item, b: Item) {
    a.score > b.score || (a.score == b.score && a.tokens <= b.tokens)
  }

  function InsertRanked(x: Item, s: seq<Item>): seq<Item> {
    if s == [] || Ranks(x, s[0]) then [x] + s else [s[0]] + InsertRanked(x, s[1..])
  }

  function Ranked(s: seq<Item>): seq<Item> {
    if s == [] then [] else InsertRanked(s[0], Ranked(s[1..]))
  }

  lemma {:induction false} InsertRankedMembers(x: Item, s: seq<Item>, y: Item)
    ensures y in InsertRanked(x, s) <==> y == x || y in s
  {
    if s != [] && !Ranks(x, s[0]) {
      InsertRankedMembers(x, s[1..], y);
      assert s == [s[0]] + s[1..];
    }
  }

  ghost predicate InRankOrder(s: seq<Item>) {
    forall i, j :: 0 <= i < j < |s| ==> Ranks(s[i], s[j])
  }

  lemma {:induction false} InsertRankedKeepsOrder(x: Item, s: seq<Item>)
    requires InRankOrder(s)
    ensures InRankOrder(InsertRanked(x, s))
  {
    if s != [] && !Ranks(x, s[0]) {
      InsertRankedKeepsOrder(x, s[1..]);
      var rest := InsertRanked(x, s[1..]);
      forall j | 0 <= j < |rest| ensures Ranks(s[0], rest[j]) {
        InsertRankedMembers(x, s[1..], rest[j]);
      }
    }
  }

  lemma {:induction false} InsertRankedContents(x: Item, s: seq<Item>)
    ensures multiset(InsertRanked(x, s)) == multiset{x} + multiset(s)
  {
    if s != [] && !Ranks(x, s[0]) {
      InsertRankedContents(x, s[1..]);
      assert s == [s[0]] + s[1..];
    }
  }

  /** Ranking reorders: best score first, smaller first among equals. */
  lemma {:induction false} RankedProperties(s: seq<Item>)
    ensures InRankOrder(Ranked(s)) && multiset(Ranked(s)) == multiset(s)
  {
    if s != [] {
      RankedProperties(s[1..]);
      InsertRankedKeepsOrder(s[0], Ranked(s[1..]));
      InsertRankedContents(s[0], Ranked(s[1..]));
      assert s == [s[0]] + s[1..];
    }
  }

  predicate SameRank(a: Item, b: Item) {
    a.score == b.score && a.tokens == b.tokens
  }

  lemma {:induction false} InsertRankedIsStable(x: Item, s: seq<Item>, y: Item)
    ensures Filter(z => SameRank(y, z), InsertRanked(x, s)) == Filter(z => SameRank(y, z), [x] + s)
  {
    var same := z => SameRank(y, z);
    assert ([x] + s)[1..] == s;
    if s != [] && !Ranks(x, s[0]) {
      InsertRankedIsStable(x, s[1..], y);
      var rest := InsertRanked(x, s[1..]);
      assert ([s[0]] + rest)[1..] == rest && ([x] + s[1..])[1..] == s[1..];
    }
  }

  /** Items that rank alike stay in the order in which they were merged. */
  lemma {:induction false} RankedIsStable(s: seq<Item>, y: Item)
    ensures Filter(z => SameRank(y, z), Ranked(s)) == Filter(z => SameRank(y, z), s)
  {
    if s != [] {
      RankedIsStable(s[1..], y);
      InsertRankedIsStable(s[0], Ranked(s[1..]), y);
      assert ([s[0]] + Ranked(s[1..]))[1..] == Ranked(s[1..]);
    }
  }

  function Filter(keep: Item -> bool, s: seq<Item>): seq<Item> {
    if s == [] then [] else (if keep(s[0]) then [s[0]] else []) + Filter(keep, s[1..])
  }

  function Min(a: int, b: int): int {
    if a < b then a else b
  }

  function Summaries(merged: seq<Item>): seq<Item> {
    Filter(IsSourceSummary, merged)
  }

  /** Chunks, then everything else, each by rank and above the minimal score. */
  function RankedRest(merged: seq<Item>, minScore: real): seq<Item> {
    Ranked(Filter(x => IsSourceChunk(x) && x.score >= minScore, merged))
    + Ranked(Filter(x => !IsSourceSummary(x) && !IsSourceChunk(x) && x.score >= minScore, merged))
  }

  function Reserved(merged: seq<Item>, budget: int): seq<Item> {
    Trimmed(Summaries(merged), Min(SUMMARY_RESERVE, budget))
  }

  function Candidates(merged: seq<Item>, minScore: real, budget: int): seq<Item> {
    Reserved(merged, budget) + RankedRest(merged, minScore)
  }

  /** `select_context` from the retrieved items on, without the model filter. */
  method SelectContext(vectorItems: seq<Item>, textItems: seq<Item>, minScore: real, budget: int)
    returns (selected: seq<Item>)
    ensures selected == Trimmed(Candidates(Merged(vectorItems + textItems), minScore, budget), budget)
  {
    var items := MergeAll(vectorItems + textItems);
    var reserved := Trim(Summaries(items), Min(SUMMARY_RESERVE, budget));
    selected := Trim(reserved + RankedRest(items, minScore), budget);
  }

  /** The selection fits the budget, starts with every summary the reserve kept,
      and leaves out nothing that would still fit. */
  lemma SelectionIsGood(merged: seq<Item>, minScore: real, budget: int)
    requires budget > 0
    ensures var candidates := Candidates(merged, minScore, budget);
      var selected := Trimmed(candidates, budget);
      && TotalTokens(selected) <= budget
      && Reserved(merged, budget) <= selected
      && (forall x :: x in selected ==> x in candidates)
      && forall x :: x in candidates && x !in selected ==> TotalTokens(selected) + x.tokens > budget
  {
    var candidates := Candidates(merged, minScore, budget);
    TrimmedFits(Summaries(merged), Min(SUMMARY_RESERVE, budget));
    TrimmedFits(candidates, budget);
    FittingPrefixSurvives(Reserved(merged, budget), RankedRest(merged, minScore), budget);
    forall x | x in candidates && x !in Trimmed(candidates, budget)
      ensures TotalTokens(Trimmed(candidates, budget)) + x.tokens > budget
    {
      DroppedDoesNotFit(candidates, budget, x);
    }
  }

  // ----- nothing is selected twice -----

  lemma {:induction false} UniqueCounts(s: seq<Item>, x: Item)
    requires UniqueIds(s)
    ensures multiset(s)[x] <= 1
  {
    if s != [] {
      var k := |s| - 1;
      UniqueCounts(s[..k], x);
      assert s == s[..k] + [s[k]];
      assert s[k] !in s[..k];
    }
  }

  lemma PartIsUnique(part: seq<Item>, s: seq<Item>)
    requires multiset(part) <= multiset(s) && UniqueIds(s)
    ensures UniqueIds(part)
  {
    forall i, j | 0 <= i < j < |part| ensures part[i].id != part[j].id {
      assert part[i] in multiset(part) && part[j] in multiset(part);
      var a :| 0 <= a < |s| && s[a] == part[i];
      var b :| 0 <= b < |s| && s[b] == part[j];
      if a == b {
        RepeatedCounts(part, i, j);
        UniqueCounts(s, part[i]);
      }
    }
  }

  lemma {:induction false} TrimmedIsPart(items: seq<Item>, budget: int)
    ensures multiset(Trimmed(items, budget)) <= multiset(items)
  {
    if items != [] {
      var k := |items| - 1;
      TrimmedIsPart(items[..k], budget);
      assert items == items[..k] + [items[k]];
    }
  }

  ghost predicate Exclusive(p: Item -> bool, q: Item -> bool, r: Item -> bool) {
    forall x :: !(p(x) && q(x)) && !(p(x) && r(x)) && !(q(x) && r(x))
  }

  lemma {:induction false} FiltersArePart(p: Item -> bool, q: Item -> bool, r: Item -> bool, s: seq<Item>)
    requires Exclusive(p, q, r)
    ensures multiset(Filter(p, s)) + multiset(Filter(q, s)) + multiset(Filter(r, s)) <= multiset(s)
  {
    if s != [] {
      FiltersArePart(p, q, r, s[1..]);
      assert s == [s[0]] + s[1..];
    }
  }

  /** Whatever was retrieved, no identifier is selected twice, and each selected
      item has the best score its identifier was retrieved with. */
  lemma SelectionIsUnique(items: seq<Item>, minScore: real, budget: int)
    ensures var selected := Trimmed(Candidates(Merged(items), minScore, budget), budget);
      && UniqueIds(selected)
      && forall x, y :: x in selected && y in items && y.id == x.id ==> x in items && y.score <= x.score
  {
    hide Merge, Merged;
    var merged := Merged(items);
    MergedProperties(items);
    SelectedArePart(merged, minScore, budget);
    var selected := Trimmed(Candidates(merged, minScore, budget), budget);
    PartIsUnique(selected, merged);
    forall x, y | x in selected && y in items && y.id == x.id ensures x in items && y.score <= x.score {
      assert x in multiset(selected);
      BestIsMerged(merged, items, x, y);
    }
  }

  lemma BestIsMerged(merged: seq<Item>, items: seq<Item>, x: Item, y: Item)
    requires MergeOf(merged, items) && x in merged && y in items && y.id == x.id
    ensures x in items && y.score <= x.score
  {
    assert Covers(merged, y);
  }

  lemma SelectedArePart(merged: seq<Item>, minScore: real, budget: int)
    ensures multiset(Trimmed(Candidates(merged, minScore, budget), budget)) <= multiset(merged)
  {
    var chunk, other := x => IsSourceChunk(x) && x.score >= minScore,
                        x => !IsSourceSummary(x) && !IsSourceChunk(x) && x.score >= minScore;
    FiltersArePart(IsSourceSummary, chunk, other, merged);
    TrimmedIsPart(Summaries(merged), Min(SUMMARY_RESERVE, budget));
    RankedProperties(Filter(chunk, merged));
    RankedProperties(Filter(other, merged));
    TrimmedIsPart(Candidates(merged, minScore, budget), budget);
  }

  // ----- the selection, said on what was retrieved -----

  /** Merging an item of a new identifier puts it last. */
  lemma {:induction false} MergeNew(merged: seq<Item>, x: Item)
    requires forall y :: y in merged ==> y.id != x.id
    ensures Merge(merged, x) == merged + [x]
  {
    if merged != [] {
      MergeNew(merged[1..], x);
    }
  }

  /** Merging one of a known identifier replaces, in its place, an item of lower
      score, and otherwise changes nothing. */
  lemma {:induction false} MergeKnown(merged: seq<Item>, x: Item, k: nat)
    requires UniqueIds(merged) && k < |merged| && merged[k].id == x.id
    ensures Merge(merged, x) == if x.score > merged[k].score then merged[k := x] else merged
  {
    if k > 0 {
      MergeKnown(merged[1..], x, k - 1);
    }
  }

  lemma {:induction false} FilterMembers(keep: Item -> bool, s: seq<Item>, x: Item)
    ensures x in Filter(keep, s) <==> x in s && keep(x)
  {
    if s != [] {
      FilterMembers(keep, s[1..], x);
      assert s == [s[0]] + s[1..];
    }
  }

  /** Summaries, then chunks, then the rest. */
  function Class(x: Item): nat {
    if x.isPassage && x.isSummary then 0 else if x.isPassage then 1 else 2
  }

  ghost predicate InOrder(a: Item, b: Item) {
    && Class(a) <= Class(b)
    && (Class(a) == Class(b) && Class(a) > 0 ==> a.score > b.score || (a.score == b.score && a.tokens <= b.tokens))
  }

  ghost predicate ByClass(s: seq<Item>) {
    forall i, j :: 0 <= i < j < |s| ==> InOrder(s[i], s[j])
  }

  lemma RankedMembers(s: seq<Item>, x: Item)
    ensures x in Ranked(s) <==> x in s
  {
    RankedProperties(s);
    assert x in Ranked(s) <==> x in multiset(Ranked(s));
  }

  lemma RestMembers(merged: seq<Item>, minScore: real, x: Item)
    ensures x in RankedRest(merged, minScore) <==> x in merged && Class(x) > 0 && x.score >= minScore
  {
    var chunk, other := y => IsSourceChunk(y) && y.score >= minScore,
                        y => !IsSourceSummary(y) && !IsSourceChunk(y) && y.score >= minScore;
    RankedMembers(Filter(chunk, merged), x);
    RankedMembers(Filter(other, merged), x);
    FilterMembers(chunk, merged, x);
    FilterMembers(other, merged, x);
  }

  lemma RestByClass(merged: seq<Item>, minScore: real)
    ensures ByClass(RankedRest(merged, minScore))
  {
    var chunk, other := y => IsSourceChunk(y) && y.score >= minScore,
                        y => !IsSourceSummary(y) && !IsSourceChunk(y) && y.score >= minScore;
    var chunks, others := Ranked(Filter(chunk, merged)), Ranked(Filter(other, merged));
    RankedProperties(Filter(chunk, merged));
    RankedProperties(Filter(other, merged));
    forall i | 0 <= i < |chunks| ensures Class(chunks[i]) == 1 {
      assert chunks[i] in chunks;
      RankedMembers(Filter(chunk, merged), chunks[i]);
      FilterMembers(chunk, merged, chunks[i]);
    }
    forall i | 0 <= i < |others| ensures Class(others[i]) == 2 {
      assert others[i] in others;
      RankedMembers(Filter(other, merged), others[i]);
      FilterMembers(other, merged, others[i]);
    }
  }

  lemma {:induction false} TrimmedByClass(items: seq<Item>, budget: int)
    requires ByClass(items)
    ensures ByClass(Trimmed(items, budget))
  {
    hide InOrder, TotalTokens;
    if items != [] {
      var k := |items| - 1;
      var kept := Trimmed(items[..k], budget);
      TrimmedByClass(items[..k], budget);
      TrimmedFits(items[..k], budget);
      forall i | 0 <= i < |kept| ensures InOrder(kept[i], items[k]) {
        assert kept[i] in items[..k];
        var j :| 0 <= j < k && items[j] == kept[i];
      }
    }
  }

  lemma ReservedAreSummaries(merged: seq<Item>, budget: int, x: Item)
    requires x in Reserved(merged, budget)
    ensures Class(x) == 0 && x in merged
  {
    TrimmedFits(Summaries(merged), Min(SUMMARY_RESERVE, budget));
    FilterMembers(IsSourceSummary, merged, x);
  }

  lemma CandidatesByClass(merged: seq<Item>, minScore: real, budget: int)
    ensures ByClass(Candidates(merged, minScore, budget))
  {
    hide RankedRest, Reserved;
    var reserved, rest := Reserved(merged, budget), RankedRest(merged, minScore);
    RestByClass(merged, minScore);
    forall i | 0 <= i < |reserved| ensures Class(reserved[i]) == 0 {
      assert reserved[i] in reserved;
      ReservedAreSummaries(merged, budget, reserved[i]);
    }
    forall i | 0 <= i < |rest| ensures Class(rest[i]) > 0 {
      assert rest[i] in rest;
      RestMembers(merged, minScore, rest[i]);
    }
  }

  /** Who is selected: no item but a summary below the minimal score; every merged
      item at or above it, unless it no longer fits; summaries first, then chunks,
      then the rest, the last two by rank. */
  lemma SelectedExactly(items: seq<Item>, minScore: real, budget: int)
    requires budget > 0
    ensures var merged := Merged(items);
      var selected := Trimmed(Candidates(merged, minScore, budget), budget);
      && (forall x :: x in selected ==> x in merged && (!(x.isPassage && x.isSummary) ==> x.score >= minScore))
      && (forall x :: x in merged && !(x.isPassage && x.isSummary) && x.score >= minScore ==>
            x in selected || TotalTokens(selected) + x.tokens > budget)
      && ByClass(selected)
  {
    hide Merged, RankedRest, Ranked, Summaries;
    var merged := Merged(items);
    var candidates := Candidates(merged, minScore, budget);
    var selected := Trimmed(candidates, budget);
    SelectionIsGood(merged, minScore, budget);
    CandidatesByClass(merged, minScore, budget);
    TrimmedByClass(candidates, budget);
    forall x | x in selected ensures x in merged && (!(x.isPassage && x.isSummary) ==> x.score >= minScore) {
      RestMembers(merged, minScore, x);
      if x in Reserved(merged, budget) {
        ReservedAreSummaries(merged, budget, x);
      }
    }
    forall x | x in merged && !(x.isPassage && x.isSummary) && x.score >= minScore
      ensures x in selected || TotalTokens(selected) + x.tokens > budget
    {
      RestMembers(merged, minScore, x);
    }
  }

  function Reserve(budget: int): int {
    if budget < 128 then budget else 128
  }

  lemma TrimmedRest(prefix: seq<Item>, rest: seq<Item>, budget: int, i: nat)
    requires prefix <= Trimmed(prefix + rest, budget) && |prefix| <= i < |Trimmed(prefix + rest, budget)|
    requires forall x :: x in rest ==> Class(x) > 0
    requires forall x :: x in prefix ==> Class(x) == 0
    requires UniqueIds(Trimmed(prefix + rest, budget))
    ensures Class(Trimmed(prefix + rest, budget)[i]) > 0
  {
    var selected := Trimmed(prefix + rest, budget);
    TrimmedFits(prefix + rest, budget);
    assert selected[i] in prefix + rest;
  }

  /** The summaries come first and fit the reserve of at most 128 tokens; a merged
      summary is left out only if it would not have. */
  lemma SummariesFitReserve(items: seq<Item>, minScore: real, budget: int) returns (k: nat)
    requires budget > 0
    ensures var merged := Merged(items);
      var selected := Trimmed(Candidates(merged, minScore, budget), budget);
      && k <= |selected|
      && (forall i :: 0 <= i < |selected| ==> (i < k <==> selected[i].isPassage && selected[i].isSummary))
      && TotalTokens(selected[..k]) <= Reserve(budget)
      && forall x :: x in merged && x.isPassage && x.isSummary && x !in selected ==>
           TotalTokens(selected[..k]) + x.tokens > Reserve(budget)
  {
    hide Merged, RankedRest, Summaries, TotalTokens, Trimmed;
    var merged := Merged(items);
    var reserved := Reserved(merged, budget);
    var selected := Trimmed(Candidates(merged, minScore, budget), budget);
    k := |reserved|;
    SelectionIsGood(merged, minScore, budget);
    SelectionIsUnique(items, minScore, budget);
    ReserveHolds(merged, budget);
    forall x | x in RankedRest(merged, minScore) ensures Class(x) > 0 {
      RestMembers(merged, minScore, x);
    }
    forall x | x in reserved ensures Class(x) == 0 {
      ReservedAreSummaries(merged, budget, x);
    }
    forall i | 0 <= i < |selected| ensures i < k <==> selected[i].isPassage && selected[i].isSummary {
      if i < k {
        assert selected[i] == reserved[i] && reserved[i] in reserved;
      } else {
        TrimmedRest(reserved, RankedRest(merged, minScore), budget, i);
      }
    }
    assert selected[..k] == reserved;
    forall x | x in merged && x.isPassage && x.isSummary && x !in selected
      ensures TotalTokens(selected[..k]) + x.tokens > Reserve(budget)
    {
      SummaryIsReserved(merged, budget, x);
    }
  }

  lemma ReserveHolds(merged: seq<Item>, budget: int)
    requires budget > 0
    ensures TotalTokens(Reserved(merged, budget)) <= Reserve(budget)
  {
    TrimmedFits(Summaries(merged), Min(SUMMARY_RESERVE, budget));
  }

  lemma SummaryIsReserved(merged: seq<Item>, budget: int, x: Item)
    requires x in merged && x.isPassage && x.isSummary && x !in Reserved(merged, budget)
    ensures TotalTokens(Reserved(merged, budget)) + x.tokens > Reserve(budget)
  {
    FilterMembers(IsSourceSummary, merged, x);
    DroppedDoesNotFit(Summaries(merged), Min(SUMMARY_RESERVE, budget), x);
  }
}
