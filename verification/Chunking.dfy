/** The sentence chunker: consecutive windows of the sentence list that overlap
    by a bounded suffix, and the token counts it reports for them. */
module Chunking {

  /** A text as its words; a chunk's text is its sentences joined by spaces. */
  type Text = seq<string>

  datatype Chunk = Chunk(text: Text, tokenCount: nat, index: nat, total: nat)

  /** The sentences from index `from` up to but excluding index `to`. */
  datatype Window = Window(from: nat, to: nat)

  // ----- token counts -----

  /** ceil(1.35 * words), in exact arithmetic. */
  function CountTokens(words: nat): nat {
    (27 * words + 19) / 20
  }

  function Tokens(sentence: Text): nat {
    CountTokens(|sentence|)
  }

  function Sum(counts: seq<nat>): nat {
    if counts == [] then 0 else Sum(counts[..|counts| - 1]) + counts[|counts| - 1]
  }

  function Join(sentences: seq<Text>): Text {
    if sentences == [] then [] else Join(sentences[..|sentences| - 1]) + sentences[|sentences| - 1]
  }

  function Counts(count: Text -> nat, sentences: seq<Text>): (counts: seq<nat>)
    ensures |counts| == |sentences| && forall i :: 0 <= i < |sentences| ==> counts[i] == count(sentences[i])
  {
    seq(|sentences|, i requires 0 <= i < |sentences| => count(sentences[i]))
  }

  lemma CountTokensOfSum(a: nat, b: nat)
    ensures CountTokens(a) + CountTokens(b) <= CountTokens(a + b) + 1
    ensures CountTokens(a + b) <= CountTokens(a) + CountTokens(b)
  {}

  /** Joining k sentences loses at most k-1 tokens to rounding and gains none. */
  lemma {:induction false} JoinedCount(sentences: seq<Text>)
    requires sentences != []
    ensures var sum := Sum(Counts(Tokens, sentences));
      sum <= Tokens(Join(sentences)) + |sentences| - 1 && Tokens(Join(sentences)) <= sum
  {
    var k := |sentences| - 1;
    assert Counts(Tokens, sentences)[..k] == Counts(Tokens, sentences[..k]);
    if k == 0 {
      assert Join(sentences[..0]) == [] && Sum(Counts(Tokens, sentences[..0])) == 0;
      assert Join(sentences) == sentences[0];
    } else {
      JoinedCount(sentences[..k]);
      CountTokensOfSum(|Join(sentences[..k])|, |sentences[k]|);
    }
  }

  // ----- the windows, declaratively -----

  function Total(counts: seq<nat>, w: Window): nat
    requires w.from <= w.to <= |counts|
  {
    Sum(counts[w.from..w.to])
  }

  /** The longest suffix of [from, to) whose tokens fit the overlap. */
  function OverlapStart(counts: seq<nat>, from: nat, to: nat, overlap: nat, taken: nat): (start: nat)
    requires from <= to <= |counts|
    ensures from <= start <= to
  {
    if from == to || taken + counts[to - 1] > overlap then to
    else OverlapStart(counts, from, to - 1, overlap, taken + counts[to - 1])
  }

  /** The windows still to come when [from, pos) is the current one. */
  function WindowsFrom(counts: seq<nat>, target: nat, overlap: nat, from: nat, pos: nat): seq<Window>
    requires from <= pos <= |counts|
    decreases |counts| - pos
  {
    if pos == |counts| then (if from < pos then [Window(from, pos)] else [])
    else
      var current := Total(counts, Window(from, pos));
      if current > 0 && current + counts[pos] > target
      then
        [Window(from, pos)]
        + WindowsFrom(counts, target, overlap, OverlapStart(counts, from, pos, overlap, 0), pos + 1)
      else WindowsFrom(counts, target, overlap, from, pos + 1)
  }

  function Windows(counts: seq<nat>, target: nat, overlap: nat): seq<Window> {
    WindowsFrom(counts, target, overlap, 0, 0)
  }

  /** `next` starts with the longest suffix of `w` that fits the overlap. */
  ghost predicate Overlaps(counts: seq<nat>, w: Window, next: Window, overlap: nat)
    requires w.from <= w.to <= |counts| && next.from <= |counts|
  {
    && w.from <= next.from <= w.to
    && Total(counts, Window(next.from, w.to)) <= overlap
    && forall s :: w.from <= s < next.from ==> Total(counts, Window(s, w.to)) > overlap
  }

  ghost predicate LongestIs(counts: seq<nat>, longest: nat) {
    forall i :: 0 <= i < |counts| ==> counts[i] <= longest
  }

  function Max(a: nat, b: nat): nat {
    if a < b then b else a
  }

  /** What the chunker promises about its windows. */
  ghost predicate GoodWindows(counts: seq<nat>, target: nat, overlap: nat, ws: seq<Window>, first: nat) {
    && (forall i :: 0 <= i < |ws| ==> ws[i].from < ws[i].to <= |counts|)
    && (ws != [] ==> ws[0].from == first && ws[|ws| - 1].to == |counts|)
    && (forall i :: 0 <= i < |ws| - 1 ==> ws[i].to < ws[i + 1].to && Overlaps(counts, ws[i], ws[i + 1], overlap))
    && (forall i, longest: nat :: 0 <= i < |ws| && LongestIs(counts, longest) ==>
          Total(counts, ws[i]) <= Max(target, overlap + longest))
  }

  lemma {:induction false} SumSplits(a: seq<nat>, b: seq<nat>)
    ensures Sum(a + b) == Sum(a) + Sum(b)
  {
    if b == [] {
      assert a + b == a;
    } else {
      var k := |b| - 1;
      SumSplits(a, b[..k]);
      assert (a + b)[..|a + b| - 1] == a + b[..k];
    }
  }

  lemma TotalSplits(counts: seq<nat>, a: nat, b: nat, c: nat)
    requires a <= b <= c <= |counts|
    ensures Total(counts, Window(a, c)) == Total(counts, Window(a, b)) + Total(counts, Window(b, c))
  {
    SumSplits(counts[a..b], counts[b..c]);
    assert counts[a..b] + counts[b..c] == counts[a..c];
  }

  lemma TotalOfOne(counts: seq<nat>, a: nat)
    requires a < |counts|
    ensures Total(counts, Window(a, a + 1)) == counts[a]
  {
    assert counts[a..a + 1] == [counts[a]];
    assert Sum([counts[a]]) == Sum([]) + counts[a];
  }

  lemma {:induction false} OverlapIsLongest(counts: seq<nat>, from: nat, to: nat, end: nat, overlap: nat)
    requires from <= to <= end <= |counts| && Total(counts, Window(to, end)) <= overlap
    ensures var start := OverlapStart(counts, from, to, overlap, Total(counts, Window(to, end)));
      && Total(counts, Window(start, end)) <= overlap
      && forall s :: from <= s < start ==> Total(counts, Window(s, end)) > overlap
  {
    if from < to {
      TotalSplits(counts, to - 1, to, end);
      TotalOfOne(counts, to - 1);
      if Total(counts, Window(to - 1, end)) <= overlap {
        OverlapIsLongest(counts, from, to - 1, end, overlap);
      } else {
        forall s | from <= s < to ensures Total(counts, Window(s, end)) > overlap {
          TotalSplits(counts, s, to - 1, end);
        }
      }
    }
  }

  ghost predicate Bounded(counts: seq<nat>, target: nat, overlap: nat, w: Window)
    requires w.from <= w.to <= |counts|
  {
    forall longest: nat :: LongestIs(counts, longest) ==> Total(counts, w) <= Max(target, overlap + longest)
  }

  /** A window grown by one sentence keeps the bound: either it had no tokens, or
      the sentence still fits the target. */
  lemma GrowingIsBounded(counts: seq<nat>, target: nat, overlap: nat, from: nat, pos: nat)
    requires from <= pos < |counts|
    requires Total(counts, Window(from, pos)) == 0 || Total(counts, Window(from, pos)) + counts[pos] <= target
    ensures Bounded(counts, target, overlap, Window(from, pos + 1))
  {
    TotalSplits(counts, from, pos, pos + 1);
    TotalOfOne(counts, pos);
  }

  lemma RestartIsBounded(counts: seq<nat>, target: nat, overlap: nat, start: nat, pos: nat)
    requires start <= pos < |counts| && Total(counts, Window(start, pos)) <= overlap
    ensures Bounded(counts, target, overlap, Window(start, pos + 1))
  {
    TotalSplits(counts, start, pos, pos + 1);
    TotalOfOne(counts, pos);
  }

  lemma GoodWindowsPrepend(counts: seq<nat>, target: nat, overlap: nat, w: Window, ws: seq<Window>, start: nat)
    requires GoodWindows(counts, target, overlap, ws, start) && ws != []
    requires w.from < w.to <= |counts| && w.to < ws[0].to && Bounded(counts, target, overlap, w)
    requires Overlaps(counts, w, ws[0], overlap)
    ensures GoodWindows(counts, target, overlap, [w] + ws, w.from)
  {
    var all := [w] + ws;
    forall i | 0 <= i < |all| - 1 ensures all[i].to < all[i + 1].to && Overlaps(counts, all[i], all[i + 1], overlap) {
      if i > 0 {
        assert all[i] == ws[i - 1] && all[i + 1] == ws[i - 1 + 1];
      }
    }
  }

  /** The windows of the rest of the text, and where their first one ends. */
  lemma {:induction false} WindowsFromAreGood(counts: seq<nat>, target: nat, overlap: nat, from: nat, pos: nat)
    requires from <= pos <= |counts| && from < |counts| && (from == pos ==> pos == 0)
    requires Bounded(counts, target, overlap, Window(from, pos))
    ensures var ws := WindowsFrom(counts, target, overlap, from, pos);
      && GoodWindows(counts, target, overlap, ws, from) && ws != [] && pos <= ws[0].to
    decreases |counts| - pos
  {
    if pos < |counts| {
      var current := Total(counts, Window(from, pos));
      if current > 0 && current + counts[pos] > target {
        var start := OverlapStart(counts, from, pos, overlap, 0);
        assert counts[pos..pos] == [] && Total(counts, Window(pos, pos)) == 0;
        OverlapIsLongest(counts, from, pos, pos, overlap);
        RestartIsBounded(counts, target, overlap, start, pos);
        WindowsFromAreGood(counts, target, overlap, start, pos + 1);
        GoodWindowsPrepend(counts, target, overlap, Window(from, pos),
                           WindowsFrom(counts, target, overlap, start, pos + 1), start);
      } else {
        GrowingIsBounded(counts, target, overlap, from, pos);
        WindowsFromAreGood(counts, target, overlap, from, pos + 1);
      }
    }
  }

  /** For every list of sentences: contiguous windows from the first sentence to
      the last, each ending later than the one before, each starting with the
      longest suffix of the one before that fits the overlap, none over the
      bound. */
  lemma WindowsAreGood(counts: seq<nat>, target: nat, overlap: nat)
    ensures GoodWindows(counts, target, overlap, Windows(counts, target, overlap), 0)
    ensures counts != [] ==> Windows(counts, target, overlap) != []
  {
    if counts != [] {
      assert counts[0..0] == [];
      WindowsFromAreGood(counts, target, overlap, 0, 0);
    }
  }

  /** Together the windows leave no sentence out. */
  lemma {:induction false} EverySentenceIsCovered(counts: seq<nat>, target: nat, overlap: nat, ws: seq<Window>,
                                                  first: nat, s: nat)
    returns (i: nat)
    requires GoodWindows(counts, target, overlap, ws, first) && ws != [] && first <= s < |counts|
    ensures i < |ws| && ws[i].from <= s < ws[i].to
  {
    i := 0;
    while s >= ws[i].to
      invariant i < |ws| && ws[i].from <= s
      decreases |ws| - i
    {
      assert Overlaps(counts, ws[i], ws[i + 1], overlap);
      i := i + 1;
    }
  }

  // ----- the chunker -----

  /** The chunks of a list of windows, all announcing `total` chunks. */
  function ChunksOf(count: Text -> nat, sentences: seq<Text>, ws: seq<Window>, total: nat): seq<Chunk>
    requires forall i :: 0 <= i < |ws| ==> ws[i].from <= ws[i].to <= |sentences|
  {
    seq(|ws|, i requires 0 <= i < |ws| =>
      var text := Join(sentences[ws[i].from..ws[i].to]);
      Chunk(text, count(text), i, total))
  }

  /** The tail of the emitted chunk that is copied into the next one, collected
      from its end. */
  method OverlapTail(count: Text -> nat, sentences: seq<Text>, ghost from: nat, ghost pos: nat, current: seq<Text>,
                     overlap: nat)
    returns (tail: seq<Text>, tokens: nat)
    requires from <= pos <= |sentences| && current == sentences[from..pos]
    ensures var counts := Counts(count, sentences);
      var start := OverlapStart(counts, from, pos, overlap, 0);
      tail == sentences[start..pos] && tokens == Total(counts, Window(start, pos))
  {
    ghost var counts := Counts(count, sentences);
    tail, tokens := [], 0;
    var k: nat := |current|;
    assert counts[pos..pos] == [];
    while k > 0
      invariant k <= |current| == pos - from
      invariant tail == sentences[from + k..pos]
      invariant tokens == Total(counts, Window(from + k, pos))
      invariant OverlapStart(counts, from, pos, overlap, 0) == OverlapStart(counts, from, from + k, overlap, tokens)
    {
      var previous := current[k - 1];
      if tokens + count(previous) > overlap {
        break;
      }
      TotalSplits(counts, from + k - 1, from + k, pos);
      TotalOfOne(counts, from + k - 1);
      tail := [previous] + tail;
      tokens := tokens + count(previous);
      k := k - 1;
    }
  }

  ghost predicate Within(ws: seq<Window>, n: nat) {
    forall i :: 0 <= i < |ws| ==> ws[i].from <= ws[i].to <= n
  }

  lemma ChunksOfAppend(count: Text -> nat, sentences: seq<Text>, ws: seq<Window>, w: Window)
    requires Within(ws, |sentences|) && w.from <= w.to <= |sentences|
    ensures ChunksOf(count, sentences, ws + [w], 0)
         == ChunksOf(count, sentences, ws, 0)
            + [Chunk(Join(sentences[w.from..w.to]), count(Join(sentences[w.from..w.to])), |ws|, 0)]
  {}

  lemma EmitStep(counts: seq<nat>, target: nat, overlap: nat, from: nat, pos: nat)
    requires from <= pos < |counts|
    requires Total(counts, Window(from, pos)) > 0 && Total(counts, Window(from, pos)) + counts[pos] > target
    ensures var start := OverlapStart(counts, from, pos, overlap, 0);
      && WindowsFrom(counts, target, overlap, from, pos)
           == [Window(from, pos)] + WindowsFrom(counts, target, overlap, start, pos + 1)
      && Total(counts, Window(start, pos + 1)) == Total(counts, Window(start, pos)) + counts[pos]
  {
    var start := OverlapStart(counts, from, pos, overlap, 0);
    TotalSplits(counts, start, pos, pos + 1);
    TotalOfOne(counts, pos);
  }

  lemma AppendStep(counts: seq<nat>, target: nat, overlap: nat, from: nat, pos: nat)
    requires from <= pos < |counts|
    requires !(Total(counts, Window(from, pos)) > 0 && Total(counts, Window(from, pos)) + counts[pos] > target)
    ensures WindowsFrom(counts, target, overlap, from, pos) == WindowsFrom(counts, target, overlap, from, pos + 1)
    ensures Total(counts, Window(from, pos + 1)) == Total(counts, Window(from, pos)) + counts[pos]
  {
    TotalSplits(counts, from, pos, pos + 1);
    TotalOfOne(counts, pos);
  }

  /** `for chunk in chunks: chunk.metadata["total_chunks"] = total`. */
  method FillTotals(unfilled: seq<Chunk>) returns (chunks: seq<Chunk>)
    ensures |chunks| == |unfilled|
    ensures forall i :: 0 <= i < |chunks| ==> chunks[i] == unfilled[i].(total := |unfilled|)
  {
    chunks := unfilled;
    for i := 0 to |unfilled|
      invariant |chunks| == |unfilled|
      invariant forall j :: 0 <= j < i ==> chunks[j] == unfilled[j].(total := |unfilled|)
      invariant forall j :: i <= j < |chunks| ==> chunks[j] == unfilled[j]
    {
      chunks := chunks[i := chunks[i].(total := |unfilled|)];
    }
  }

  /** The pass over the sentences; no chunk knows the total yet. */
  method Pass(count: Text -> nat, sentences: seq<Text>, target: nat, overlap: nat) returns (chunks: seq<Chunk>)
    ensures var ws := Windows(Counts(count, sentences), target, overlap);
      Within(ws, |sentences|) && chunks == ChunksOf(count, sentences, ws, 0)
  {
    hide Total, ChunksOf, Join, OverlapStart, Sum;
    ghost var counts := Counts(count, sentences);
    ghost var ws := Windows(counts, target, overlap);
    ghost var done: seq<Window> := [];
    ghost var from: nat := 0;
    chunks := [];
    var current: seq<Text>, currentTokens := [], 0;
    NothingYet(count, sentences);
    for pos := 0 to |sentences|
      invariant from <= pos && current == sentences[from..pos] && currentTokens == Total(counts, Window(from, pos))
      invariant done + WindowsFrom(counts, target, overlap, from, pos) == ws && Within(done, |sentences|)
      invariant chunks == ChunksOf(count, sentences, done, 0) && |chunks| == |done|
    {
      hide WindowsFrom, Windows;
      var sentence := sentences[pos];
      assert counts[pos] == count(sentence);
      var sentenceTokens := count(sentence);
      if currentTokens > 0 && currentTokens + sentenceTokens > target {
        EmitStep(counts, target, overlap, from, pos);
        ChunksOfAppend(count, sentences, done, Window(from, pos));
        chunks := chunks + [Chunk(Join(current), count(Join(current)), |chunks|, 0)];
        var tail, tokens := OverlapTail(count, sentences, from, pos, current, overlap);
        done, from := done + [Window(from, pos)], OverlapStart(counts, from, pos, overlap, 0);
        assert sentences[from..pos] + [sentence] == sentences[from..pos + 1];
        current, currentTokens := tail + [sentence], tokens + sentenceTokens;
      } else {
        AppendStep(counts, target, overlap, from, pos);
        assert sentences[from..pos] + [sentence] == sentences[from..pos + 1];
        current, currentTokens := current + [sentence], currentTokens + sentenceTokens;
      }
    }
    if current != [] {
      ChunksOfAppend(count, sentences, done, Window(from, |sentences|));
      chunks := chunks + [Chunk(Join(current), count(Join(current)), |chunks|, 0)];
    } else {
      assert ws == done + [] == done;
    }
  }

  lemma NothingYet(count: Text -> nat, sentences: seq<Text>)
    ensures Total(Counts(count, sentences), Window(0, 0)) == 0 && ChunksOf(count, sentences, [], 0) == []
  {
    assert Counts(count, sentences)[0..0] == [];
  }

  /** `chunk`: one pass over the sentences, then the totals are filled in. */
  method ChunkSentences(count: Text -> nat, sentences: seq<Text>, target: nat, overlap: nat)
    returns (chunks: seq<Chunk>)
    ensures var ws := Windows(Counts(count, sentences), target, overlap);
      Within(ws, |sentences|) && chunks == ChunksOf(count, sentences, ws, |ws|)
  {
    var unfilled := Pass(count, sentences, target, overlap);
    chunks := FillTotals(unfilled);
  }

  /** What a chunk reports lies within its window's token sum, up to one token of
      rounding per join, and so within the window bound. */
  lemma ReportedCountIsClose(sentences: seq<Text>, target: nat, overlap: nat, longest: nat, i: nat)
    requires var ws := Windows(Counts(Tokens, sentences), target, overlap); i < |ws| && Within(ws, |sentences|)
    requires LongestIs(Counts(Tokens, sentences), longest)
    ensures var ws := Windows(Counts(Tokens, sentences), target, overlap);
      var reported := ChunksOf(Tokens, sentences, ws, |ws|)[i].tokenCount;
      var sum := Total(Counts(Tokens, sentences), ws[i]);
      sum <= reported + (ws[i].to - ws[i].from - 1) && reported <= sum <= Max(target, overlap + longest)
  {
    var counts := Counts(Tokens, sentences);
    var w := Windows(counts, target, overlap)[i];
    WindowsAreGood(counts, target, overlap);
    assert counts[w.from..w.to] == Counts(Tokens, sentences[w.from..w.to]);
    JoinedCount(sentences[w.from..w.to]);
  }

  // ----- texts, cuts and counts, said outright -----

  /** The least integer not below 1.35 times the words. */
  lemma CountTokensIsCeiling(words: nat, t: nat)
    ensures 20 * CountTokens(words) >= 27 * words && (20 * t >= 27 * words ==> t >= CountTokens(words))
  {}

  function Lengths(sentences: seq<Text>): (lengths: seq<nat>)
    ensures |lengths| == |sentences| && forall i :: 0 <= i < |sentences| ==> lengths[i] == |sentences[i]|
  {
    seq(|sentences|, i requires 0 <= i < |sentences| => |sentences[i]|)
  }

  lemma {:induction false} JoinHolds(sentences: seq<Text>, k: nat)
    requires k < |sentences|
    ensures |Join(sentences)| == Sum(Lengths(sentences))
    ensures var offset := Sum(Lengths(sentences[..k]));
      && offset + |sentences[k]| <= |Join(sentences)|
      && Join(sentences)[offset..offset + |sentences[k]|] == sentences[k]
  {
    var last := |sentences| - 1;
    var front := sentences[..last];
    assert Lengths(sentences)[..last] == Lengths(front);
    if last == 0 {
      assert front == [] && Join(front) == [] && Sum(Lengths(front)) == 0;
    } else {
      JoinHolds(front, if k < last then k else 0);
      if k < last {
        assert front[..k] == sentences[..k];
      }
    }
  }

  /** The chunks themselves: numbered, announcing the total, counted, and holding
      exactly their window's sentences in order, each at the offset of those before
      it. */
  lemma ChunksHold(count: Text -> nat, sentences: seq<Text>, ws: seq<Window>, i: nat, k: nat)
    requires Within(ws, |sentences|) && i < |ws| && ws[i].from <= k < ws[i].to
    ensures var chunk := ChunksOf(count, sentences, ws, |ws|)[i];
      var offset := Sum(Lengths(sentences[ws[i].from..k]));
      && chunk.index == i && chunk.total == |ws| && chunk.tokenCount == count(chunk.text)
      && |chunk.text| == Sum(Lengths(sentences[ws[i].from..ws[i].to]))
      && offset + |sentences[k]| <= |chunk.text| && chunk.text[offset..offset + |sentences[k]|] == sentences[k]
  {
    hide Join, Sum;
    var part := sentences[ws[i].from..ws[i].to];
    JoinHolds(part, k - ws[i].from);
    assert part[..k - ws[i].from] == sentences[ws[i].from..k];
  }

  /** The next sentence does not go into the window that has reached it. */
  ghost predicate Cuts(counts: seq<nat>, target: nat, from: nat, pos: nat)
    requires from <= pos < |counts|
  {
    Total(counts, Window(from, pos)) > 0 && Total(counts, Window(from, pos)) + counts[pos] > target
  }

  /** From `first` on, every sentence of the window still went into it. */
  ghost predicate Uncut(counts: seq<nat>, target: nat, w: Window, first: nat)
    requires w.from <= w.to <= |counts|
  {
    forall p :: first <= p < w.to && w.from <= p ==> !Cuts(counts, target, w.from, p)
  }

  /** Each window but the last ends where the next sentence would not fit, and not
      before; `pos` is how far the first window has come. */
  ghost predicate CutRight(counts: seq<nat>, target: nat, ws: seq<Window>, pos: nat) {
    && (forall i :: 0 <= i < |ws| ==> ws[i].from <= ws[i].to <= |counts|)
    && (forall i :: 0 <= i < |ws| - 1 ==> ws[i].to < |counts| && Cuts(counts, target, ws[i].from, ws[i].to))
    && (ws != [] ==> Uncut(counts, target, ws[0], pos))
    && (forall i :: 1 <= i < |ws| ==> Uncut(counts, target, ws[i], ws[i - 1].to + 1))
  }

  lemma CutRightPrepend(counts: seq<nat>, target: nat, from: nat, pos: nat, ws: seq<Window>)
    requires from <= pos < |counts| && Cuts(counts, target, from, pos)
    requires ws != [] && CutRight(counts, target, ws, pos + 1)
    ensures CutRight(counts, target, [Window(from, pos)] + ws, pos)
  {
    hide Cuts;
    var all := [Window(from, pos)] + ws;
    forall i | 0 <= i < |all| - 1 ensures all[i].to < |counts| && Cuts(counts, target, all[i].from, all[i].to) {
      if i > 0 {
        assert all[i] == ws[i - 1];
      }
    }
    forall i | 1 <= i < |all| ensures Uncut(counts, target, all[i], all[i - 1].to + 1) {
      assert all[i] == ws[i - 1];
      if i > 1 {
        assert all[i - 1] == ws[i - 1 - 1];
      }
    }
  }

  lemma {:induction false} WindowsFromCut(counts: seq<nat>, target: nat, overlap: nat, from: nat, pos: nat)
    requires from <= pos <= |counts| && from < |counts| && (from == pos ==> pos == 0)
    requires Bounded(counts, target, overlap, Window(from, pos))
    ensures CutRight(counts, target, WindowsFrom(counts, target, overlap, from, pos), pos)
    decreases |counts| - pos
  {
    hide Total, Bounded;
    if pos < |counts| {
      if Cuts(counts, target, from, pos) {
        var start := OverlapStart(counts, from, pos, overlap, 0);
        NextIsBounded(counts, target, overlap, from, pos);
        WindowsFromCut(counts, target, overlap, start, pos + 1);
        WindowsFromAreGood(counts, target, overlap, start, pos + 1);
        CutRightPrepend(counts, target, from, pos, WindowsFrom(counts, target, overlap, start, pos + 1));
      } else {
        GrowingIsBounded(counts, target, overlap, from, pos);
        WindowsFromCut(counts, target, overlap, from, pos + 1);
        WindowsFromAreGood(counts, target, overlap, from, pos + 1);
        NotCutEarlier(counts, target, WindowsFrom(counts, target, overlap, from, pos + 1), from, pos);
      }
    }
  }

  lemma NextIsBounded(counts: seq<nat>, target: nat, overlap: nat, from: nat, pos: nat)
    requires from <= pos < |counts|
    ensures Bounded(counts, target, overlap, Window(OverlapStart(counts, from, pos, overlap, 0), pos + 1))
  {
    assert counts[pos..pos] == [] && Total(counts, Window(pos, pos)) == 0;
    OverlapIsLongest(counts, from, pos, pos, overlap);
    RestartIsBounded(counts, target, overlap, OverlapStart(counts, from, pos, overlap, 0), pos);
  }

  lemma NotCutEarlier(counts: seq<nat>, target: nat, ws: seq<Window>, from: nat, pos: nat)
    requires from <= pos < |counts| && !Cuts(counts, target, from, pos)
    requires CutRight(counts, target, ws, pos + 1) && ws != [] && ws[0].from == from
    ensures CutRight(counts, target, ws, pos)
  {
    hide Cuts;
  }

  /** Where the text is cut: a window ends exactly at the first sentence, beyond the
      one that opened it, that its tokens and the target leave no room for. */
  lemma WindowsAreCutRight(counts: seq<nat>, target: nat, overlap: nat)
    ensures CutRight(counts, target, Windows(counts, target, overlap), 0)
  {
    if counts != [] {
      assert counts[0..0] == [];
      WindowsFromCut(counts, target, overlap, 0, 0);
    }
  }
}
