/** Pairing recent questions with answers: newest question first, each taking the
    newest unused answer that is not older than itself. */
module QaPairs {

  datatype Item = Item(id: nat, isQuestion: bool, time: int, text: string)

  // ----- sorting by time, newest first -----

  /** x came before everything in s, so it stays first among equals. */
  function InsertByTime(x: Item, s: seq<Item>): seq<Item> {
    if s == [] || x.time >= s[0].time then [x] + s else [s[0]] + InsertByTime(x, s[1..])
  }

  function NewestFirst(s: seq<Item>): seq<Item> {
    if s == [] then [] else InsertByTime(s[0], NewestFirst(s[1..]))
  }

  ghost predicate Descending(s: seq<Item>) {
    forall i, j :: 0 <= i <= j < |s| ==> s[i].time >= s[j].time
  }

  lemma {:induction false} InsertByTimeMembers(x: Item, s: seq<Item>, y: Item)
    ensures y in InsertByTime(x, s) <==> y == x || y in s
  {
    if s != [] && x.time < s[0].time {
      InsertByTimeMembers(x, s[1..], y);
      assert s == [s[0]] + s[1..];
    }
  }

  lemma {:induction false} InsertByTimeDescends(x: Item, s: seq<Item>)
    requires Descending(s)
    ensures Descending(InsertByTime(x, s)) && |InsertByTime(x, s)| == |s| + 1
  {
    if s != [] && x.time < s[0].time {
      var rest := InsertByTime(x, s[1..]);
      InsertByTimeDescends(x, s[1..]);
      forall i | 0 <= i < |rest| ensures s[0].time >= rest[i].time {
        InsertByTimeMembers(x, s[1..], rest[i]);
      }
    }
  }

  lemma {:induction false} InsertByTimeContents(x: Item, s: seq<Item>)
    ensures multiset(InsertByTime(x, s)) == multiset{x} + multiset(s)
  {
    if s != [] && x.time < s[0].time {
      InsertByTimeContents(x, s[1..]);
      assert s == [s[0]] + s[1..];
    }
  }

  /** The sorted list has the same items and descends. */
  lemma {:induction false} NewestFirstProperties(s: seq<Item>)
    ensures Descending(NewestFirst(s)) && |NewestFirst(s)| == |s|
    ensures multiset(NewestFirst(s)) == multiset(s)
  {
    if s != [] {
      NewestFirstProperties(s[1..]);
      InsertByTimeDescends(s[0], NewestFirst(s[1..]));
      InsertByTimeContents(s[0], NewestFirst(s[1..]));
      assert s == [s[0]] + s[1..];
    }
  }

  lemma NewestFirstMembers(s: seq<Item>, y: Item)
    ensures y in NewestFirst(s) <==> y in s
  {
    NewestFirstProperties(s);
    assert y in NewestFirst(s) <==> y in multiset(NewestFirst(s));
  }

  function At(s: seq<Item>, t: int): seq<Item> {
    if s == [] then [] else (if s[0].time == t then [s[0]] else []) + At(s[1..], t)
  }

  lemma {:induction false} InsertByTimeIsStable(x: Item, s: seq<Item>, t: int)
    ensures At(InsertByTime(x, s), t) == At([x] + s, t)
  {
    assert ([x] + s)[1..] == s;
    if s != [] && x.time < s[0].time {
      InsertByTimeIsStable(x, s[1..], t);
      var rest := InsertByTime(x, s[1..]);
      assert ([s[0]] + rest)[1..] == rest && ([x] + s[1..])[1..] == s[1..];
    }
  }

  /** Items of the same time keep their order. */
  lemma {:induction false} NewestFirstIsStable(s: seq<Item>, t: int)
    ensures At(NewestFirst(s), t) == At(s, t)
  {
    if s != [] {
      NewestFirstIsStable(s[1..], t);
      InsertByTimeIsStable(s[0], NewestFirst(s[1..]), t);
      assert ([s[0]] + NewestFirst(s[1..]))[1..] == NewestFirst(s[1..]);
    }
  }

  function OfKind(items: seq<Item>, question: bool): seq<Item> {
    if items == [] then []
    else if items[0].isQuestion == question then [items[0]] + OfKind(items[1..], question)
    else OfKind(items[1..], question)
  }

  function IdOf(x: Item): int {
    x.id
  }

  function TimeOf(x: Item): int {
    x.time
  }

  ghost predicate DistinctBy(key: Item -> int, s: seq<Item>) {
    forall i, j :: 0 <= i < j < |s| ==> key(s[i]) != key(s[j])
  }

  ghost predicate DistinctItems(s: seq<Item>) {
    DistinctBy(IdOf, s)
  }

  lemma {:induction false} OfKindIsDistinct(key: Item -> int, items: seq<Item>, question: bool)
    requires DistinctBy(key, items)
    ensures DistinctBy(key, OfKind(items, question))
    ensures forall x :: x in OfKind(items, question) ==> x in items
  {
    if items != [] {
      OfKindIsDistinct(key, items[1..], question);
      var rest := OfKind(items[1..], question);
      forall j | 0 <= j < |rest| ensures key(rest[j]) != key(items[0]) {
        assert rest[j] in rest;
        var i :| 0 <= i < |items[1..]| && items[1..][i] == rest[j];
      }
    }
  }

  lemma {:induction false} InsertIsDistinct(key: Item -> int, x: Item, s: seq<Item>)
    requires DistinctBy(key, s) && forall y :: y in s ==> key(y) != key(x)
    ensures DistinctBy(key, InsertByTime(x, s))
  {
    if s != [] && x.time < s[0].time {
      InsertIsDistinct(key, x, s[1..]);
      var rest := InsertByTime(x, s[1..]);
      forall j | 0 <= j < |rest| ensures key(rest[j]) != key(s[0]) {
        InsertByTimeMembers(x, s[1..], rest[j]);
      }
    }
  }

  lemma {:induction false} NewestFirstIsDistinct(key: Item -> int, s: seq<Item>)
    requires DistinctBy(key, s)
    ensures DistinctBy(key, NewestFirst(s))
  {
    if s != [] {
      NewestFirstIsDistinct(key, s[1..]);
      forall y | y in NewestFirst(s[1..]) ensures key(y) != key(s[0]) {
        NewestFirstMembers(s[1..], y);
        var i :| 0 <= i < |s[1..]| && s[1..][i] == y;
      }
      InsertIsDistinct(key, s[0], NewestFirst(s[1..]));
    }
  }

  ghost predicate StrictlyDescending(s: seq<Item>) {
    forall i, j :: 0 <= i < j < |s| ==> s[i].time > s[j].time
  }

  /** Items stored at different times sort strictly. */
  lemma DistinctTimesSortStrictly(items: seq<Item>, question: bool)
    requires DistinctBy(TimeOf, items)
    ensures StrictlyDescending(NewestFirst(OfKind(items, question)))
  {
    OfKindIsDistinct(TimeOf, items, question);
    NewestFirstIsDistinct(TimeOf, OfKind(items, question));
    NewestFirstProperties(OfKind(items, question));
  }

  // ----- the greedy matching, by positions -----

  datatype Pair = Pair(question: nat, answer: nat)

  function Used(pairs: seq<Pair>): set<nat> {
    set p | p in pairs :: p.answer
  }

  /** The first answer from position k on that is free and not older than t;
      |answers| when there is none. */
  function FirstFree(answers: seq<Item>, used: set<nat>, t: int, k: nat): (r: nat)
    requires k <= |answers|
    ensures k <= r <= |answers|
    ensures r < |answers| ==> r !in used && answers[r].time >= t
    ensures forall j :: k <= j < r ==> !(j !in used && answers[j].time >= t)
    decreases |answers| - k
  {
    if k == |answers| || (k !in used && answers[k].time >= t) then k else FirstFree(answers, used, t, k + 1)
  }

  function Extended(pairs: seq<Pair>, question: nat, answers: seq<Item>, answer: nat): seq<Pair> {
    if answer < |answers| then pairs + [Pair(question, answer)] else pairs
  }

  function Greedy(questions: seq<Item>, answers: seq<Item>): seq<Pair> {
    if questions == [] then []
    else
      var k := |questions| - 1;
      var pairs := Greedy(questions[..k], answers);
      Extended(pairs, k, answers, FirstFree(answers, Used(pairs), questions[k].time, 0))
  }

  /** What is returned: the limit is compared after each question, so a limit below
      one still allows the newest question its pair. */
  function Recent(questions: seq<Item>, answers: seq<Item>, limit: int): seq<Pair> {
    var all := Greedy(questions, answers);
    if limit >= 1 then (if limit < |all| then all[..limit] else all)
    else if questions == [] then [] else Greedy(questions[..1], answers)
  }

  lemma {:induction false} GreedyGrows(questions: seq<Item>, answers: seq<Item>, i: nat)
    requires i <= |questions|
    ensures Greedy(questions[..i], answers) <= Greedy(questions, answers)
    decreases |questions|
  {
    if i < |questions| {
      var k := |questions| - 1;
      GreedyGrows(questions[..k], answers, i);
      assert questions[..k][..i] == questions[..i];
    } else {
      assert questions[..i] == questions;
    }
  }

  function Texts(questions: seq<Item>, answers: seq<Item>, pairs: seq<Pair>): seq<(string, string)>
    requires forall p :: p in pairs ==> p.question < |questions| && p.answer < |answers|
  {
    seq(|pairs|, i requires 0 <= i < |pairs| => (questions[pairs[i].question].text, answers[pairs[i].answer].text))
  }

  // ----- what a matching is, and that the greedy one is as large as any -----

  /** Questions to answers, no answer twice and none older than its question. */
  ghost predicate IsMatching(questions: seq<Item>, answers: seq<Item>, m: map<nat, nat>) {
    && (forall q :: q in m ==> q < |questions| && m[q] < |answers| && answers[m[q]].time >= questions[q].time)
    && forall p, q :: p in m && q in m && p != q ==> m[p] != m[q]
  }

  ghost predicate GoodPairs(questions: seq<Item>, answers: seq<Item>, pairs: seq<Pair>) {
    && (forall p :: p in pairs ==>
          p.question < |questions| && p.answer < |answers| && answers[p.answer].time >= questions[p.question].time)
    && forall i, j :: 0 <= i < j < |pairs| ==>
         pairs[i].question < pairs[j].question && pairs[i].answer != pairs[j].answer
  }

  lemma GoodExtends(questions: seq<Item>, answers: seq<Item>, pairs: seq<Pair>, a: nat)
    requires questions != [] && GoodPairs(questions[..|questions| - 1], answers, pairs)
    requires a < |answers| ==> a !in Used(pairs) && answers[a].time >= questions[|questions| - 1].time
    ensures GoodPairs(questions, answers, Extended(pairs, |questions| - 1, answers, a))
  {
    var k := |questions| - 1;
    var all := Extended(pairs, k, answers, a);
    forall p | p in all
      ensures p.question < |questions| && p.answer < |answers| && answers[p.answer].time >= questions[p.question].time
    {
      if p in pairs {
        assert questions[..k][p.question] == questions[p.question];
      }
    }
    forall i, j | 0 <= i < j < |all| ensures all[i].question < all[j].question && all[i].answer != all[j].answer {
      assert pairs[i] in pairs && pairs[i].answer in Used(pairs);
    }
  }

  /** No answer is used twice, none is older than its question, newer questions
      come first. */
  lemma {:induction false} GreedyIsGood(questions: seq<Item>, answers: seq<Item>)
    ensures GoodPairs(questions, answers, Greedy(questions, answers))
  {
    if questions != [] {
      var k := |questions| - 1;
      var pairs := Greedy(questions[..k], answers);
      GreedyIsGood(questions[..k], answers);
      GoodExtends(questions, answers, pairs, FirstFree(answers, Used(pairs), questions[k].time, 0));
    }
  }

  lemma {:induction false} UsedCount(pairs: seq<Pair>)
    requires forall i, j :: 0 <= i < j < |pairs| ==> pairs[i].answer != pairs[j].answer
    ensures |Used(pairs)| == |pairs|
  {
    if pairs != [] {
      var k := |pairs| - 1;
      UsedCount(pairs[..k]);
      assert Used(pairs) == Used(pairs[..k]) + {pairs[k].answer};
      assert pairs[k].answer !in Used(pairs[..k]);
    }
  }

  ghost function Values(m: map<nat, nat>): set<nat> {
    set q | q in m :: m[q]
  }

  lemma {:induction false} InjectiveCount(m: map<nat, nat>)
    requires forall p, q :: p in m && q in m && p != q ==> m[p] != m[q]
    ensures |Values(m)| == |m|
  {
    if m.Keys != {} {
      var q :| q in m;
      var rest := m - {q};
      InjectiveCount(rest);
      forall v | v in Values(m) ensures v in Values(rest) + {m[q]} {
        var p :| p in m && m[p] == v;
        assert p != q ==> p in rest && rest[p] == v;
      }
      assert Values(m) == Values(rest) + {m[q]};
      assert m[q] !in Values(rest);
      assert m.Keys == rest.Keys + {q};
    } else {
      assert m == map[];
    }
  }

  lemma SubsetCount(a: set<nat>, b: set<nat>)
    requires a <= b
    ensures |a| <= |b|
  {
    assert b == a + (b - a);
  }

  /** When the oldest question finds nothing, every answer any question could use
      is in use. */
  lemma ExhaustedIsMaximal(questions: seq<Item>, answers: seq<Item>, m: map<nat, nat>)
    requires questions != [] && Descending(questions) && IsMatching(questions, answers, m)
    requires var pairs := Greedy(questions[..|questions| - 1], answers);
      FirstFree(answers, Used(pairs), questions[|questions| - 1].time, 0) == |answers|
    ensures |m| <= |Greedy(questions[..|questions| - 1], answers)|
  {
    var k := |questions| - 1;
    var pairs := Greedy(questions[..k], answers);
    GreedyIsGood(questions[..k], answers);
    UsedCount(pairs);
    forall a | a in Values(m) ensures a in Used(pairs) {
      var q :| q in m && m[q] == a;
      assert questions[q].time >= questions[k].time;
    }
    InjectiveCount(m);
    SubsetCount(Values(m), Used(pairs));
  }

  lemma WithoutOldest(questions: seq<Item>, answers: seq<Item>, m: map<nat, nat>)
    requires questions != [] && IsMatching(questions, answers, m)
    ensures IsMatching(questions[..|questions| - 1], answers, m - {|questions| - 1})
    ensures |m| <= |m - {|questions| - 1}| + 1
  {
    var k := |questions| - 1;
    RestIsMatching(questions, answers, m);
    WithoutKeyCount(m, k);
  }

  lemma RestIsMatching(questions: seq<Item>, answers: seq<Item>, m: map<nat, nat>)
    requires questions != [] && IsMatching(questions, answers, m)
    ensures IsMatching(questions[..|questions| - 1], answers, m - {|questions| - 1})
  {
    var k := |questions| - 1;
    var front, rest := questions[..k], m - {k};
    forall q | q in rest ensures q < |front| && rest[q] < |answers| && answers[rest[q]].time >= front[q].time {
      assert q in m && rest[q] == m[q] && q != k;
      assert front[q] == questions[q];
    }
    forall p, q | p in rest && q in rest && p != q ensures rest[p] != rest[q] {
      assert p in m && q in m;
    }
  }

  lemma WithoutKeyCount(m: map<nat, nat>, k: nat)
    ensures |m| <= |m - {k}| + 1
  {
    var rest := m - {k};
    assert |m.Keys| == |m| && |rest.Keys| == |rest|;
    SubsetCount(m.Keys, rest.Keys + {k});
  }

  /** No matching is larger than the greedy one. */
  lemma {:induction false} GreedyIsMaximum(questions: seq<Item>, answers: seq<Item>, m: map<nat, nat>)
    requires Descending(questions) && IsMatching(questions, answers, m)
    ensures |m| <= |Greedy(questions, answers)|
  {
    if questions == [] {
      assert m.Keys == {};
      assert |m| == |m.Keys|;
    } else {
      hide IsMatching;
      var k := |questions| - 1;
      var pairs := Greedy(questions[..k], answers);
      if FirstFree(answers, Used(pairs), questions[k].time, 0) == |answers| {
        ExhaustedIsMaximal(questions, answers, m);
      } else {
        WithoutOldest(questions, answers, m);
        GreedyIsMaximum(questions[..k], answers, m - {k});
      }
    }
  }

  function AsMap(pairs: seq<Pair>): map<nat, nat> {
    if pairs == [] then map[]
    else AsMap(pairs[..|pairs| - 1])[pairs[|pairs| - 1].question := pairs[|pairs| - 1].answer]
  }

  ghost predicate Increasing(pairs: seq<Pair>) {
    forall i, j :: 0 <= i < j < |pairs| ==> pairs[i].question < pairs[j].question
  }

  ghost predicate MapsOnly(m: map<nat, nat>, pairs: seq<Pair>) {
    forall q :: q in m ==> Pair(q, m[q]) in pairs
  }

  lemma KeyIsNew(m: map<nat, nat>, pairs: seq<Pair>)
    requires pairs != [] && Increasing(pairs) && MapsOnly(m, pairs[..|pairs| - 1])
    ensures pairs[|pairs| - 1].question !in m
  {}

  /** With increasing questions, the pairs and the map say the same. */
  lemma {:induction false} AsMapMembers(pairs: seq<Pair>)
    requires Increasing(pairs)
    ensures |AsMap(pairs)| == |pairs| && MapsOnly(AsMap(pairs), pairs)
  {
    if pairs != [] {
      var k := |pairs| - 1;
      AsMapMembers(pairs[..k]);
      var front, all := AsMap(pairs[..k]), AsMap(pairs);
      KeyIsNew(front, pairs);
      assert all.Keys == front.Keys + {pairs[k].question};
      assert |all.Keys| == |all| && |front.Keys| == |front|;
    }
  }

  lemma AsMapIsMatching(questions: seq<Item>, answers: seq<Item>, pairs: seq<Pair>)
    requires GoodPairs(questions, answers, pairs)
    ensures IsMatching(questions, answers, AsMap(pairs)) && |AsMap(pairs)| == |pairs|
  {
    AsMapMembers(pairs);
    var m := AsMap(pairs);
    forall p, q | p in m && q in m && p != q ensures m[p] != m[q] {
      var i, j :| 0 <= i < |pairs| && 0 <= j < |pairs| && pairs[i] == Pair(p, m[p]) && pairs[j] == Pair(q, m[q]);
      assert i < j || j < i;
    }
  }

  lemma GoodPrefix(questions: seq<Item>, answers: seq<Item>, pairs: seq<Pair>, limit: nat)
    requires GoodPairs(questions, answers, pairs) && limit <= |pairs|
    ensures GoodPairs(questions, answers, pairs[..limit])
  {}

  /** Optimality: for a limit of at least one, the result is a matching, it has
      at most `limit` pairs, and no matching has more unless the limit is met. */
  lemma RecentIsOptimal(questions: seq<Item>, answers: seq<Item>, limit: int, m: map<nat, nat>)
    requires Descending(questions) && limit >= 1 && IsMatching(questions, answers, m)
    ensures var pairs := Recent(questions, answers, limit);
      && GoodPairs(questions, answers, pairs)
      && IsMatching(questions, answers, AsMap(pairs)) && |AsMap(pairs)| == |pairs| <= limit
      && (|pairs| < limit ==> |m| <= |pairs|)
  {
    hide IsMatching, GoodPairs;
    var all, pairs := Greedy(questions, answers), Recent(questions, answers, limit);
    GreedyIsGood(questions, answers);
    if limit < |all| {
      GoodPrefix(questions, answers, all, limit);
    }
    AsMapIsMatching(questions, answers, pairs);
    GreedyIsMaximum(questions, answers, m);
  }

  // ----- the loop -----

  ghost function UsedIds(answers: seq<Item>, pairs: seq<Pair>): set<nat> {
    set p | p in pairs && p.answer < |answers| :: answers[p.answer].id
  }

  /** `next(...)` over the answers: the first unused one that is not older. */
  method NextAnswer(answers: seq<Item>, usedIds: set<nat>, t: int, ghost pairs: seq<Pair>) returns (a: nat)
    requires DistinctItems(answers) && usedIds == UsedIds(answers, pairs)
    requires forall p :: p in pairs ==> p.answer < |answers|
    ensures a == FirstFree(answers, Used(pairs), t, 0)
  {
    a := 0;
    while a < |answers| && (answers[a].id in usedIds || answers[a].time < t)
      invariant a <= |answers|
      invariant FirstFree(answers, Used(pairs), t, 0) == FirstFree(answers, Used(pairs), t, a)
    {
      UsedById(answers, pairs, a);
      a := a + 1;
    }
    if a < |answers| {
      UsedById(answers, pairs, a);
    }
  }

  lemma UsedById(answers: seq<Item>, pairs: seq<Pair>, a: nat)
    requires DistinctItems(answers) && a < |answers| && forall p :: p in pairs ==> p.answer < |answers|
    ensures answers[a].id in UsedIds(answers, pairs) <==> a in Used(pairs)
  {
    if answers[a].id in UsedIds(answers, pairs) {
      var p :| p in pairs && p.answer < |answers| && answers[p.answer].id == answers[a].id;
      assert p.answer == a;
    }
  }

  /** `get_recent_qa_pairs`. */
  method GetRecentQaPairs(items: seq<Item>, limit: int) returns (result: seq<(string, string)>)
    requires DistinctItems(items)
    ensures var questions, answers := NewestFirst(OfKind(items, true)), NewestFirst(OfKind(items, false));
      var pairs := Recent(questions, answers, limit);
      && (forall p :: p in pairs ==> p.question < |questions| && p.answer < |answers|)
      && result == Texts(questions, answers, pairs)
  {
    var questions, answers := NewestFirst(OfKind(items, true)), NewestFirst(OfKind(items, false));
    AnswersAreDistinct(items);
    var pairs := RecentPairs(questions, answers, limit);
    RecentIsInRange(questions, answers, limit);
    result := Texts(questions, answers, pairs);
  }

  lemma AnswersAreDistinct(items: seq<Item>)
    requires DistinctItems(items)
    ensures DistinctItems(NewestFirst(OfKind(items, false)))
  {
    OfKindIsDistinct(IdOf, items, false);
    NewestFirstIsDistinct(IdOf, OfKind(items, false));
  }

  lemma RecentIsInRange(questions: seq<Item>, answers: seq<Item>, limit: int)
    ensures forall p :: p in Recent(questions, answers, limit) ==> p.question < |questions| && p.answer < |answers|
  {
    GreedyInRange(questions, answers);
    if questions != [] {
      GreedyInRange(questions[..1], answers);
    }
  }

  method RecentPairs(questions: seq<Item>, answers: seq<Item>, limit: int) returns (pairs: seq<Pair>)
    requires DistinctItems(answers)
    ensures pairs == Recent(questions, answers, limit)
  {
    hide Recent, Greedy, FirstFree, UsedIds;
    pairs := [];
    var usedIds: set<nat> := {};
    NothingPaired(questions, answers);
    for i := 0 to |questions|
      invariant pairs == Greedy(questions[..i], answers) && usedIds == UsedIds(answers, pairs)
      invariant i > 0 ==> |pairs| < limit
    {
      GreedyInRange(questions[..i], answers);
      var a := NextAnswer(answers, usedIds, questions[i].time, pairs);
      GreedyStep(questions, answers, i);
      UsedIdsExtend(answers, pairs, i, a);
      if a < |answers| {
        pairs := pairs + [Pair(i, a)];
        usedIds := usedIds + {answers[a].id};
      }
      if |pairs| >= limit {
        StoppedEarly(questions, answers, i + 1, limit);
        return;
      }
    }
    assert questions[..|questions|] == questions;
    NotStopped(questions, answers, limit);
  }

  lemma NothingPaired(questions: seq<Item>, answers: seq<Item>)
    ensures Greedy(questions[..0], answers) == [] && UsedIds(answers, []) == {}
  {}

  lemma GreedyInRange(questions: seq<Item>, answers: seq<Item>)
    ensures forall p :: p in Greedy(questions, answers) ==> p.question < |questions| && p.answer < |answers|
  {
    GreedyIsGood(questions, answers);
  }

  lemma UsedIdsExtend(answers: seq<Item>, pairs: seq<Pair>, i: nat, a: nat)
    ensures a < |answers| ==> UsedIds(answers, pairs + [Pair(i, a)]) == UsedIds(answers, pairs) + {answers[a].id}
  {
    assert forall p :: p in pairs + [Pair(i, a)] <==> p in pairs || p == Pair(i, a);
  }

  lemma GreedyStep(questions: seq<Item>, answers: seq<Item>, i: nat)
    requires i < |questions|
    ensures var pairs := Greedy(questions[..i], answers);
      Greedy(questions[..i + 1], answers)
        == Extended(pairs, i, answers, FirstFree(answers, Used(pairs), questions[i].time, 0))
  {
    assert questions[..i + 1][..i] == questions[..i];
  }

  lemma StoppedEarly(questions: seq<Item>, answers: seq<Item>, i: nat, limit: int)
    requires 0 < i <= |questions| && |Greedy(questions[..i], answers)| >= limit
    requires i > 1 ==> |Greedy(questions[..i - 1], answers)| < limit
    ensures Greedy(questions[..i], answers) == Recent(questions, answers, limit)
  {
    hide FirstFree, Used;
    GreedyGrows(questions, answers, i);
    GreedyStep(questions, answers, i - 1);
    assert questions[..0] == [];
  }

  lemma NotStopped(questions: seq<Item>, answers: seq<Item>, limit: int)
    requires questions == [] || |Greedy(questions, answers)| < limit
    ensures Greedy(questions, answers) == Recent(questions, answers, limit)
  {}

  // ----- adjacency -----

  /** The answer came after question k and before the next question. */
  predicate InTurn(questions: seq<Item>, answers: seq<Item>, k: nat, a: nat)
    requires k < |questions| && a < |answers|
  {
    answers[a].time >= questions[k].time && (k > 0 ==> answers[a].time < questions[k - 1].time)
  }

  /** The answer stored immediately after question k; |answers| when the next
      question came first. */
  function Following(questions: seq<Item>, answers: seq<Item>, k: nat, n: nat): (r: nat)
    requires k < |questions| && n <= |answers|
    ensures r < n || r == |answers|
    ensures r < n ==> InTurn(questions, answers, k, r) && forall a :: r < a < n ==> !InTurn(questions, answers, k, a)
    ensures r == |answers| ==> forall a :: 0 <= a < n ==> !InTurn(questions, answers, k, a)
  {
    if n == 0 then |answers|
    else if InTurn(questions, answers, k, n - 1) then n - 1
    else Following(questions, answers, k, n - 1)
  }

  /** Each question with the answer stored immediately after it. */
  function Adjacent(questions: seq<Item>, answers: seq<Item>, k: nat): seq<Pair>
    requires k <= |questions|
  {
    if k == 0 then []
    else Extended(Adjacent(questions, answers, k - 1), k - 1, answers, Following(questions, answers, k - 1, |answers|))
  }

  ghost predicate OneAnswerPerTurn(questions: seq<Item>, answers: seq<Item>, k: nat)
    requires k <= |questions|
  {
    forall i, a, b :: 0 <= i < k && 0 <= a < b < |answers| ==>
      !(InTurn(questions, answers, i, a) && InTurn(questions, answers, i, b))
  }

  /** Everything not older than the last of the first k questions is used. */
  ghost predicate UsesUpTo(questions: seq<Item>, answers: seq<Item>, k: nat, used: set<nat>)
    requires k <= |questions|
  {
    forall a :: a in used <==> 0 <= a < |answers| && k > 0 && answers[a].time >= questions[k - 1].time
  }

  lemma UsedOfExtended(pairs: seq<Pair>, k: nat, answers: seq<Item>, a: nat)
    ensures Used(Extended(pairs, k, answers, a)) == if a < |answers| then Used(pairs) + {a} else Used(pairs)
  {}

  /** With the newer answers used up, the greedy choice for question k is the
      newest answer of its turn; it is the adjacent one iff the turn has no other. */
  lemma ChoiceInTurn(questions: seq<Item>, answers: seq<Item>, k: nat, used: set<nat>)
    requires k < |questions| && StrictlyDescending(questions) && StrictlyDescending(answers)
    requires UsesUpTo(questions, answers, k, used)
    ensures var choice := FirstFree(answers, used, questions[k].time, 0);
      var adjacent := Following(questions, answers, k, |answers|);
      && (choice < |answers| <==> adjacent < |answers|)
      && (choice < |answers| ==> InTurn(questions, answers, k, choice) && choice <= adjacent)
      && (choice == adjacent ==>
            UsesUpTo(questions, answers, k + 1, if choice < |answers| then used + {choice} else used))
      && (choice == adjacent <==> forall a, b :: 0 <= a < b < |answers| ==>
            !(InTurn(questions, answers, k, a) && InTurn(questions, answers, k, b)))
  {
    forall a | 0 <= a < |answers|
      ensures InTurn(questions, answers, k, a) <==> a !in used && answers[a].time >= questions[k].time
    {}
  }

  ghost predicate OlderThan(pairs: seq<Pair>, k: nat) {
    forall p :: p in pairs ==> p.question < k
  }

  lemma {:induction false} PairsAreOlder(questions: seq<Item>, answers: seq<Item>, k: nat)
    requires k <= |questions|
    ensures OlderThan(Adjacent(questions, answers, k), k) && OlderThan(Greedy(questions[..k], answers), k)
  {
    if k > 0 {
      PairsAreOlder(questions, answers, k - 1);
      GreedyStep(questions, answers, k - 1);
    }
  }

  lemma ExtendedAgree(a: seq<Pair>, b: seq<Pair>, k: nat, answers: seq<Item>, x: nat, y: nat)
    requires OlderThan(a, k) && OlderThan(b, k) && x <= |answers| && y <= |answers|
    ensures Extended(a, k, answers, x) == Extended(b, k, answers, y) <==> a == b && x == y
  {
    ExtendedEnd(a, k, answers, x);
    ExtendedEnd(b, k, answers, y);
    var ea, eb := Extended(a, k, answers, x), Extended(b, k, answers, y);
    if ea == eb && EndsWith(ea, k) {
      assert a == ea[..|ea| - 1] && b == eb[..|eb| - 1];
    }
  }

  ghost predicate EndsWith(pairs: seq<Pair>, k: nat) {
    pairs != [] && pairs[|pairs| - 1].question == k
  }

  lemma ExtendedEnd(a: seq<Pair>, k: nat, answers: seq<Item>, x: nat)
    requires OlderThan(a, k) && x <= |answers|
    ensures EndsWith(Extended(a, k, answers, x), k) <==> x < |answers|
  {
    if x == |answers| && a != [] {
      assert a[|a| - 1] in a;
    }
  }

  /** On logs whose times differ, the pairs are exactly the adjacent ones if and
      only if no question is followed by two answers before the next question. */
  lemma {:induction false} GreedyIsAdjacentExactly(questions: seq<Item>, answers: seq<Item>, k: nat)
    requires StrictlyDescending(questions) && StrictlyDescending(answers) && k <= |questions|
    ensures Greedy(questions[..k], answers) == Adjacent(questions, answers, k) <==>
      OneAnswerPerTurn(questions, answers, k)
    ensures OneAnswerPerTurn(questions, answers, k) ==>
      UsesUpTo(questions, answers, k, Used(Greedy(questions[..k], answers)))
  {
    if k > 0 {
      var i := k - 1;
      var greedy, adjacent := Greedy(questions[..i], answers), Adjacent(questions, answers, i);
      GreedyIsAdjacentExactly(questions, answers, i);
      GreedyStep(questions, answers, i);
      PairsAreOlder(questions, answers, i);
      var x, y := FirstFree(answers, Used(greedy), questions[i].time, 0), Following(questions, answers, i, |answers|);
      ExtendedAgree(greedy, adjacent, i, answers, x, y);
      UsedOfExtended(greedy, i, answers, x);
      if OneAnswerPerTurn(questions, answers, i) {
        ChoiceInTurn(questions, answers, i, Used(greedy));
      }
    }
  }

  /** How many of the newest questions it takes until `limit` of them are
      answered in their turn; all of them when there are not so many. */
  function TurnsNeeded(questions: seq<Item>, answers: seq<Item>, limit: int, k: nat): (r: nat)
    requires k <= |questions|
    ensures k <= r <= |questions|
    decreases |questions| - k
  {
    if k == |questions| || |Adjacent(questions, answers, k)| >= limit then k
    else TurnsNeeded(questions, answers, limit, k + 1)
  }

  lemma {:induction false} TurnsNeededIsLeast(questions: seq<Item>, answers: seq<Item>, limit: int, k: nat)
    requires k <= |questions|
    ensures var r := TurnsNeeded(questions, answers, limit, k);
      && (r == |questions| || |Adjacent(questions, answers, r)| >= limit)
      && forall i :: k <= i < r ==> |Adjacent(questions, answers, i)| < limit
    decreases |questions| - k
  {
    hide Adjacent;
    if k < |questions| && |Adjacent(questions, answers, k)| < limit {
      TurnsNeededIsLeast(questions, answers, limit, k + 1);
    }
  }

  /** The last of `limit` adjacent pairs belongs to the question that completed
      them. */
  lemma TurnsAreNeeded(questions: seq<Item>, answers: seq<Item>, limit: int, k: nat)
    requires 0 < k <= |questions| && |Adjacent(questions, answers, k - 1)| < limit <= |Adjacent(questions, answers, k)|
    ensures |Adjacent(questions, answers, k)| == limit && EndsWith(Adjacent(questions, answers, k), k - 1)
  {}

  lemma {:induction false} LaterPairs(questions: seq<Item>, answers: seq<Item>, k: nat, i: nat)
    requires k <= |questions| && |Greedy(questions[..k], answers)| <= i < |Greedy(questions, answers)|
    ensures Greedy(questions, answers)[i].question >= k
    decreases |questions|
  {
    hide FirstFree, Used, Greedy;
    assert questions[..|questions|] == questions;
    if k < |questions| {
      var last := |questions| - 1;
      assert questions[..last + 1] == questions && questions[..last][..k] == questions[..k];
      GreedyStep(questions, answers, last);
      if i < |Greedy(questions[..last], answers)| {
        LaterPairs(questions[..last], answers, k, i);
      }
    }
  }

  /** The greedy pairs of the first k questions are the greedy pairs whose
      questions come before k. */
  lemma PrefixPairs(questions: seq<Item>, answers: seq<Item>, k: nat, i: nat)
    requires k <= |questions| && i < |Greedy(questions, answers)|
    ensures Greedy(questions[..k], answers) <= Greedy(questions, answers)
    ensures i < |Greedy(questions[..k], answers)| <==> Greedy(questions, answers)[i].question < k
  {
    hide Greedy;
    GreedyGrows(questions, answers, k);
    if i < |Greedy(questions[..k], answers)| {
      GreedyInRange(questions[..k], answers);
      assert Greedy(questions[..k], answers)[i] in Greedy(questions[..k], answers);
    } else {
      LaterPairs(questions, answers, k, i);
    }
  }

  lemma GreedyQuestionsIncrease(questions: seq<Item>, answers: seq<Item>)
    ensures Increasing(Greedy(questions, answers))
  {
    hide Greedy;
    GreedyIsGood(questions, answers);
  }

  /** The first `limit` greedy pairs are those of the first k questions when the
      last of them is question k's. */
  lemma CompletingPair(questions: seq<Item>, answers: seq<Item>, limit: nat, k: nat)
    requires 1 <= limit <= |Greedy(questions, answers)| && 0 < k <= |questions|
    requires Greedy(questions, answers)[limit - 1].question == k - 1
    ensures Greedy(questions, answers)[..limit] == Greedy(questions[..k], answers)
  {
    hide Greedy;
    PrefixPairs(questions, answers, k, limit - 1);
    GreedyQuestionsIncrease(questions, answers);
    if limit < |Greedy(questions, answers)| {
      PrefixPairs(questions, answers, k, limit);
    }
  }

  lemma StoppedIsPrefix(questions: seq<Item>, answers: seq<Item>, limit: int, k: nat)
    requires limit >= 1 && 0 < k <= |questions|
    requires |Adjacent(questions, answers, k)| == limit && EndsWith(Adjacent(questions, answers, k), k - 1)
    ensures Recent(questions, answers, limit) == Adjacent(questions, answers, k) <==>
      Greedy(questions[..k], answers) == Adjacent(questions, answers, k)
  {
    hide Greedy, Adjacent;
    GreedyGrows(questions, answers, k);
    if Recent(questions, answers, limit) == Adjacent(questions, answers, k) {
      CompletingPair(questions, answers, limit, k);
    }
  }

  lemma NoTurnsNoPairs(questions: seq<Item>, answers: seq<Item>)
    ensures Adjacent(questions, answers, 0) == []
  {}

  lemma UnstoppedIsAll(questions: seq<Item>, answers: seq<Item>, limit: int)
    requires limit >= 1 && |Adjacent(questions, answers, |questions|)| < limit
    ensures Recent(questions, answers, limit) == Adjacent(questions, answers, |questions|) <==>
      Greedy(questions[..|questions|], answers) == Adjacent(questions, answers, |questions|)
  {
    assert questions[..|questions|] == questions;
  }

  /** The documented promise with its exact condition, for items stored at
      different times and every limit of at least one: the result is the newest
      `limit` adjacent pairs if and only if, among the questions it takes to find
      them, none is followed by two answers before the next question. */
  lemma RecentIsAdjacentExactly(items: seq<Item>, limit: int)
    requires DistinctBy(TimeOf, items) && limit >= 1
    ensures var questions, answers := NewestFirst(OfKind(items, true)), NewestFirst(OfKind(items, false));
      var k := TurnsNeeded(questions, answers, limit, 0);
      (Recent(questions, answers, limit) == Adjacent(questions, answers, k)
       <==> OneAnswerPerTurn(questions, answers, k))
  {
    hide Recent, Greedy, Adjacent, TurnsNeeded, OneAnswerPerTurn, DistinctBy;
    var questions, answers := NewestFirst(OfKind(items, true)), NewestFirst(OfKind(items, false));
    var k := TurnsNeeded(questions, answers, limit, 0);
    DistinctTimesSortStrictly(items, true);
    DistinctTimesSortStrictly(items, false);
    GreedyIsAdjacentExactly(questions, answers, k);
    TurnsNeededIsLeast(questions, answers, limit, 0);
    if |Adjacent(questions, answers, k)| < limit {
      UnstoppedIsAll(questions, answers, limit);
    } else {
      NoTurnsNoPairs(questions, answers);
      TurnsAreNeeded(questions, answers, limit, k);
      StoppedIsPrefix(questions, answers, limit, k);
    }
  }

  // ----- the returned texts -----

  lemma {:induction false} OfKindMembers(items: seq<Item>, question: bool, x: Item)
    ensures x in OfKind(items, question) <==> x in items && x.isQuestion == question
  {
    if items != [] {
      OfKindMembers(items[1..], question, x);
      assert items == [items[0]] + items[1..];
    }
  }

  /** The pair is a question's text, then the text of an answer not older than it. */
  ghost predicate Answered(items: seq<Item>, pair: (string, string)) {
    exists q, a :: q in items && a in items && q.isQuestion && !a.isQuestion && a.time >= q.time
      && pair.0 == q.text && pair.1 == a.text
  }

  lemma SortedMember(items: seq<Item>, question: bool, k: nat)
    requires k < |NewestFirst(OfKind(items, question))|
    ensures var x := NewestFirst(OfKind(items, question))[k]; x in items && x.isQuestion == question
  {
    hide NewestFirst, OfKind;
    var x := NewestFirst(OfKind(items, question))[k];
    NewestFirstMembers(OfKind(items, question), x);
    OfKindMembers(items, question, x);
  }

  /** Every returned pair is a question of the log followed by an answer of it. */
  lemma TextsExactly(items: seq<Item>, limit: int, i: nat)
    requires var questions, answers := NewestFirst(OfKind(items, true)), NewestFirst(OfKind(items, false));
      i < |Recent(questions, answers, limit)|
    ensures var questions, answers := NewestFirst(OfKind(items, true)), NewestFirst(OfKind(items, false));
      var pairs := Recent(questions, answers, limit);
      && (forall p :: p in pairs ==> p.question < |questions| && p.answer < |answers|)
      && |Texts(questions, answers, pairs)| == |pairs| && Answered(items, Texts(questions, answers, pairs)[i])
  {
    hide NewestFirst, OfKind, Greedy;
    var questions, answers := NewestFirst(OfKind(items, true)), NewestFirst(OfKind(items, false));
    var pairs := Recent(questions, answers, limit);
    RecentIsInRange(questions, answers, limit);
    RecentIsTimely(questions, answers, limit);
    assert pairs[i] in pairs;
    SortedMember(items, true, pairs[i].question);
    SortedMember(items, false, pairs[i].answer);
  }

  lemma RecentIsTimely(questions: seq<Item>, answers: seq<Item>, limit: int)
    ensures forall p :: p in Recent(questions, answers, limit) ==>
      p.question < |questions| && p.answer < |answers| && answers[p.answer].time >= questions[p.question].time
  {
    GreedyIsGood(questions, answers);
    if questions != [] {
      GreedyIsGood(questions[..1], answers);
    }
  }

  // ----- a log on which the documented promise fails -----

  function TwoAnswers(question: string, first: string, second: string): seq<Item> {
    [Item(0, true, 0, question), Item(1, false, 1, first), Item(2, false, 2, second)]
  }

  lemma TwoAnswersSorted(question: string, first: string, second: string)
    ensures var items := TwoAnswers(question, first, second);
      && NewestFirst(OfKind(items, true)) == [items[0]]
      && NewestFirst(OfKind(items, false)) == [items[2], items[1]]
  {
    var items := TwoAnswers(question, first, second);
    assert items[1..] == [items[1], items[2]] && items[1..][1..] == [items[2]] && items[2..][1..] == [];
    assert OfKind([], true) == [] && OfKind([], false) == [] && NewestFirst([]) == [];
    assert OfKind([items[2]], true) == [] && OfKind([items[2]], false) == [items[2]];
    assert OfKind(items, true) == [items[0]] && OfKind(items, false) == [items[1], items[2]];
    assert NewestFirst([items[2]]) == [items[2]];
    assert [items[1], items[2]][1..] == [items[2]] && [items[2]][1..] == [];
    assert InsertByTime(items[1], [items[2]]) == [items[2], items[1]];
  }

  /** One question and two answers, stored one after the other: the question is
      paired with the second answer, not with the one stored right after it. */
  lemma TwoAnswersAreNotAdjacent(question: string, first: string, second: string, limit: int)
    ensures var items := TwoAnswers(question, first, second);
      var questions, answers := NewestFirst(OfKind(items, true)), NewestFirst(OfKind(items, false));
      && DistinctItems(items) && DistinctBy(TimeOf, items)
      && questions == [items[0]] && answers == [items[2], items[1]]
      && Recent(questions, answers, limit) == [Pair(0, 0)] && answers[0].text == second
      && Adjacent(questions, answers, 1) == [Pair(0, 1)] && answers[1].text == first
  {
    var items := TwoAnswers(question, first, second);
    TwoAnswersSorted(question, first, second);
    var questions, answers := [items[0]], [items[2], items[1]];
    assert questions[..0] == [] && questions[..1] == questions;
    assert Greedy([], answers) == [] && Used([]) == {};
    assert Greedy(questions, answers) == [Pair(0, 0)];
    assert InTurn(questions, answers, 0, 1);
    assert Adjacent(questions, answers, 0) == [];
    assert [Pair(0, 0)][..1] == [Pair(0, 0)];
  }
}
