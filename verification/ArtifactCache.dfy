/** The artifact cache: a dictionary from (execution key, sorted input digests)
    to the artifact to reuse, kept beside the artifacts themselves, and its
    agreement with a scan of the history that produced it. */
module ArtifactCache {
  import opened TaskGraphs

  // ----- the order-insensitive part of the key -----

  function Insert(x: int, s: seq<int>): seq<int> {
    if s == [] || x <= s[0] then [x] + s else [s[0]] + Insert(x, s[1..])
  }

  function Sorted(s: seq<int>): seq<int> {
    if s == [] then [] else Insert(s[0], Sorted(s[1..]))
  }

  ghost predicate Ascending(s: seq<int>) {
    |s| <= 1 || (s[0] <= s[1] && Ascending(s[1..]))
  }

  lemma {:induction false} HeadIsLeast(s: seq<int>, x: int)
    requires Ascending(s) && x in s
    ensures s[0] <= x
  {
    if |s| > 1 && x in s[1..] {
      HeadIsLeast(s[1..], x);
    }
  }

  lemma InsertHead(x: int, s: seq<int>)
    ensures Insert(x, s)[0] == if s == [] || x <= s[0] then x else s[0]
  {}

  lemma {:induction false} InsertKeepsOrder(x: int, s: seq<int>)
    requires Ascending(s)
    ensures Ascending(Insert(x, s))
  {
    if s == [] {
    } else if x <= s[0] {
      assert ([x] + s)[1..] == s;
    } else {
      InsertKeepsOrder(x, s[1..]);
      InsertHead(x, s[1..]);
      assert ([s[0]] + Insert(x, s[1..]))[1..] == Insert(x, s[1..]);
    }
  }

  lemma {:induction false} InsertAddsOne(x: int, s: seq<int>)
    ensures multiset(Insert(x, s)) == multiset(s) + multiset{x}
  {
    if s != [] {
      InsertAddsOne(x, s[1..]);
      assert s == [s[0]] + s[1..];
    }
  }

  lemma {:induction false} SortedProperties(s: seq<int>)
    ensures Ascending(Sorted(s)) && multiset(Sorted(s)) == multiset(s)
  {
    if s != [] {
      SortedProperties(s[1..]);
      InsertKeepsOrder(s[0], Sorted(s[1..]));
      InsertAddsOne(s[0], Sorted(s[1..]));
      assert s == [s[0]] + s[1..];
    }
  }

  lemma SameMultisetSameHead(s: seq<int>, t: seq<int>)
    requires Ascending(s) && Ascending(t) && multiset(s) == multiset(t) && s != []
    ensures t != [] && s[0] == t[0]
  {
    assert s[0] in multiset(s);
    assert t != [];
    assert t[0] in multiset(t);
    HeadIsLeast(s, t[0]);
    HeadIsLeast(t, s[0]);
  }

  lemma {:induction false} AscendingIsUnique(s: seq<int>, t: seq<int>)
    requires Ascending(s) && Ascending(t) && multiset(s) == multiset(t)
    ensures s == t
  {
    if s == [] {
      assert |multiset(t)| == 0;
    } else {
      SameMultisetSameHead(s, t);
      assert s == [s[0]] + s[1..] && t == [t[0]] + t[1..];
      assert multiset(s[1..]) == multiset(s) - multiset{s[0]};
      assert multiset(t[1..]) == multiset(t) - multiset{t[0]};
      AscendingIsUnique(s[1..], t[1..]);
    }
  }

  /** Sorting makes a key of the inputs as a multiset: order is forgotten,
      repetition is not. */
  lemma SortedIsCanonical(s: seq<int>, t: seq<int>)
    ensures Sorted(s) == Sorted(t) <==> multiset(s) == multiset(t)
  {
    SortedProperties(s);
    SortedProperties(t);
    if multiset(s) == multiset(t) {
      AscendingIsUnique(Sorted(s), Sorted(t));
    }
  }

  // ----- the store -----

  /** What a node's execution key serialises. */
  datatype CacheKey = CacheKey(kind: NodeKind, name: string, execution: map<string, string>, allowCache: Option<bool>)

  datatype Slot = Slot(key: CacheKey, inputs: seq<int>)

  datatype Artifact = Artifact(
    id: Id,
    port: string,
    content: Content,
    cacheKey: Option<CacheKey>,
    inputs: Option<seq<int>>,
    supersededBy: Option<Id>)

  datatype ArtifactStore = ArtifactStore(artifacts: map<Id, Artifact>, index: map<Slot, Id>)

  const EMPTY_STORE := ArtifactStore(map[], map[])

  function SlotOf(a: Artifact): Option<Slot> {
    if a.cacheKey.Some? && a.inputs.Some?
    then Some(Slot(a.cacheKey.value, Sorted(a.inputs.value)))
    else None
  }

  function Persist(s: ArtifactStore, a: Artifact): ArtifactStore {
    var index := if SlotOf(a).Some? && a.supersededBy.None? then s.index[SlotOf(a).value := a.id] else s.index;
    ArtifactStore(s.artifacts[a.id := a], index)
  }

  /** None is the storage error for an unknown artifact. */
  function Supersede(s: ArtifactStore, id: Id, successor: Id): Option<ArtifactStore> {
    if id !in s.artifacts then None
    else
      var a := s.artifacts[id].(supersededBy := Some(successor));
      var index := if SlotOf(a).Some? then s.index - {SlotOf(a).value} else s.index;
      Some(ArtifactStore(s.artifacts[id := a], index))
  }

  function Find(s: ArtifactStore, key: CacheKey, inputs: seq<int>): Option<Artifact> {
    var slot := Slot(key, Sorted(inputs));
    if slot in s.index && s.index[slot] in s.artifacts && s.artifacts[s.index[slot]].supersededBy.None?
    then Some(s.artifacts[s.index[slot]])
    else None
  }

  // ----- histories -----

  datatype Op = PersistOp(artifact: Artifact) | SupersedeOp(id: Id, successor: Id)

  function Apply(s: ArtifactStore, op: Op): ArtifactStore {
    match op
    case PersistOp(a) => Persist(s, a)
    case SupersedeOp(id, successor) =>
      if Supersede(s, id, successor).Some? then Supersede(s, id, successor).value else s
  }

  function Replay(h: seq<Op>): ArtifactStore {
    if h == [] then EMPTY_STORE else Apply(Replay(h[..|h| - 1]), h[|h| - 1])
  }

  /** Identifiers come from the generator, so no artifact is persisted twice. */
  ghost predicate FreshIds(h: seq<Op>) {
    forall i, j :: 0 <= i < j < |h| && h[i].PersistOp? && h[j].PersistOp? ==> h[i].artifact.id != h[j].artifact.id
  }

  /** Step i stores a reusable artifact in the slot. */
  ghost predicate Offers(h: seq<Op>, i: int, slot: Slot)
    requires 0 <= i < |h|
  {
    h[i].PersistOp? && SlotOf(h[i].artifact) == Some(slot) && h[i].artifact.supersededBy.None?
  }

  ghost predicate StoredAs(op: Op, id: Id, slot: Slot) {
    op.PersistOp? && op.artifact.id == id && SlotOf(op.artifact) == Some(slot)
  }

  /** Step i supersedes some artifact stored earlier in the slot. */
  ghost predicate Retires(h: seq<Op>, i: int, slot: Slot)
    requires 0 <= i < |h|
  {
    && h[i].SupersedeOp?
    && exists j :: 0 <= j < i && StoredAs(h[j], h[i].id, slot)
  }

  /** The artifact of step i was stored unsuperseded and stayed so. */
  ghost predicate Live(h: seq<Op>, i: int)
    requires 0 <= i < |h|
  {
    && h[i].PersistOp? && h[i].artifact.supersededBy.None?
    && forall j :: i < j < |h| ==> !(h[j].SupersedeOp? && h[j].id == h[i].artifact.id)
  }

  /** The stored artifacts are those of the history, changed only by supersession. */
  ghost predicate Keeps(h: seq<Op>, artifacts: map<Id, Artifact>) {
    && (forall id :: id in artifacts ==> exists j :: 0 <= j < |h| && h[j].PersistOp? && h[j].artifact.id == id)
    && forall j :: 0 <= j < |h| && h[j].PersistOp? ==>
      && h[j].artifact.id in artifacts
      && var now := artifacts[h[j].artifact.id];
      && now == h[j].artifact.(supersededBy := now.supersededBy)
      && (Live(h, j) ==> now == h[j].artifact)
  }

  lemma KeepsStep(g: seq<Op>, op: Op, s: ArtifactStore)
    requires FreshIds(g + [op]) && Keeps(g, s.artifacts)
    ensures Keeps(g + [op], Apply(s, op).artifacts)
  {
    var h := g + [op];
    assert forall j :: 0 <= j < |g| ==> h[j] == g[j];
    forall j | 0 <= j < |g| && Live(h, j) ensures Live(g, j) {}
    assert h[|g|] == op;
  }

  lemma {:induction false} ReplayKeeps(h: seq<Op>)
    requires FreshIds(h)
    ensures Keeps(h, Replay(h).artifacts)
  {
    if h != [] {
      var g, op := h[..|h| - 1], h[|h| - 1];
      assert h == g + [op];
      ReplayKeeps(g);
      KeepsStep(g, op, Replay(g));
    }
  }

  /** The step that serves the slot: the last offer, unless a retirement
      followed; -1 when there is none. */
  ghost function Serving(h: seq<Op>, slot: Slot): int {
    if h == [] then -1
    else if Offers(h, |h| - 1, slot) then |h| - 1
    else if Retires(h, |h| - 1, slot) then -1
    else Serving(h[..|h| - 1], slot)
  }

  lemma SameEvents(h: seq<Op>, n: int, i: int, slot: Slot)
    requires 0 <= i < n <= |h|
    ensures Offers(h[..n], i, slot) == Offers(h, i, slot) && Retires(h[..n], i, slot) == Retires(h, i, slot)
  {
    var g := h[..n];
    assert forall j :: 0 <= j <= i ==> g[j] == h[j];
    if Retires(g, i, slot) {
      var j :| 0 <= j < i && StoredAs(g[j], g[i].id, slot);
      assert StoredAs(h[j], h[i].id, slot);
    }
  }

  lemma {:induction false} ServingIsLast(h: seq<Op>, slot: Slot)
    ensures var k := Serving(h, slot);
      && -1 <= k < |h|
      && (k >= 0 ==> Offers(h, k, slot) && forall j :: k < j < |h| ==> !Offers(h, j, slot) && !Retires(h, j, slot))
      && (k < 0 ==> forall i :: 0 <= i < |h| && Offers(h, i, slot) ==> exists j :: i < j < |h| && Retires(h, j, slot))
  {
    if h != [] && !Offers(h, |h| - 1, slot) {
      var n := |h| - 1;
      ServingIsLast(h[..n], slot);
      forall i | 0 <= i < n
        ensures Offers(h[..n], i, slot) == Offers(h, i, slot) && Retires(h[..n], i, slot) == Retires(h, i, slot)
      {
        SameEvents(h, n, i, slot);
      }
    }
  }

  ghost predicate IndexServes(h: seq<Op>, slot: Slot, s: ArtifactStore) {
    var k := Serving(h, slot);
    if 0 <= k < |h| && h[k].PersistOp?
    then slot in s.index && s.index[slot] == h[k].artifact.id
    else slot !in s.index
  }

  lemma RetiringClearsTheSlot(h: seq<Op>, slot: Slot, s: ArtifactStore)
    requires FreshIds(h) && h != [] && h[|h| - 1].SupersedeOp? && Keeps(h[..|h| - 1], s.artifacts)
    ensures var op := h[|h| - 1];
      Retires(h, |h| - 1, slot) <==> op.id in s.artifacts && SlotOf(s.artifacts[op.id]) == Some(slot)
  {
    var n := |h| - 1;
    var g, op := h[..n], h[n];
    assert forall j :: 0 <= j < n ==> g[j] == h[j];
    if op.id in s.artifacts {
      var j :| 0 <= j < |g| && g[j].PersistOp? && g[j].artifact.id == op.id;
      assert h[j] == g[j];
    }
  }

  lemma IndexStep(h: seq<Op>, slot: Slot, s: ArtifactStore)
    requires FreshIds(h) && h != []
    requires Keeps(h[..|h| - 1], s.artifacts) && IndexServes(h[..|h| - 1], slot, s)
    ensures IndexServes(h, slot, Apply(s, h[|h| - 1]))
  {
    var n := |h| - 1;
    ServingIsLast(h[..n], slot);
    if h[n].SupersedeOp? {
      RetiringClearsTheSlot(h, slot, s);
    }
  }

  lemma {:induction false} ReplayIndexServes(h: seq<Op>, slot: Slot)
    requires FreshIds(h)
    ensures IndexServes(h, slot, Replay(h))
  {
    if h != [] {
      ReplayIndexServes(h[..|h| - 1], slot);
      ReplayKeeps(h[..|h| - 1]);
      IndexStep(h, slot, Replay(h[..|h| - 1]));
    }
  }

  lemma OwnSupersessionRetires(h: seq<Op>, i: int, j: int, slot: Slot)
    requires 0 <= i < j < |h| && Offers(h, i, slot)
    requires h[j].SupersedeOp? && h[j].id == h[i].artifact.id
    ensures Retires(h, j, slot)
  {
    assert StoredAs(h[i], h[j].id, slot);
  }

  lemma ServedIsLive(h: seq<Op>, slot: Slot)
    ensures Serving(h, slot) >= 0 ==> Serving(h, slot) < |h| && Live(h, Serving(h, slot))
  {
    var k := Serving(h, slot);
    ServingIsLast(h, slot);
    if k >= 0 && !Live(h, k) {
      var j :| k < j < |h| && h[j].SupersedeOp? && h[j].id == h[k].artifact.id;
      OwnSupersessionRetires(h, k, j, slot);
    }
  }

  /** A lookup answers exactly from the step that serves the slot. */
  lemma FindIsServing(h: seq<Op>, key: CacheKey, inputs: seq<int>)
    requires FreshIds(h)
    ensures var k := Serving(h, Slot(key, Sorted(inputs)));
      && -1 <= k < |h|
      && (k >= 0 ==> h[k].PersistOp?)
      && Find(Replay(h), key, inputs) == if k >= 0 then Some(h[k].artifact) else None
  {
    var slot := Slot(key, Sorted(inputs));
    ReplayIndexServes(h, slot);
    ReplayKeeps(h);
    ServingIsLast(h, slot);
    ServedIsLive(h, slot);
  }

  /** The same execution key and the same inputs, in whatever order. */
  ghost predicate Matches(a: Artifact, key: CacheKey, inputs: seq<int>) {
    a.cacheKey == Some(key) && a.inputs.Some? && multiset(a.inputs.value) == multiset(inputs)
  }

  lemma MatchesIsSlot(a: Artifact, key: CacheKey, inputs: seq<int>)
    ensures Matches(a, key, inputs) <==> SlotOf(a) == Some(Slot(key, Sorted(inputs)))
  {
    if a.inputs.Some? {
      SortedIsCanonical(a.inputs.value, inputs);
    }
  }

  ghost predicate NewestLive(h: seq<Op>, i: int, key: CacheKey, inputs: seq<int>) {
    && 0 <= i < |h| && Live(h, i) && Matches(h[i].artifact, key, inputs)
    && forall j :: i < j < |h| && Live(h, j) ==> !Matches(h[j].artifact, key, inputs)
  }

  /** A hit is the newest unsuperseded artifact with the key and the inputs. */
  lemma HitIsNewestLive(h: seq<Op>, key: CacheKey, inputs: seq<int>)
    requires FreshIds(h) && Find(Replay(h), key, inputs).Some?
    ensures exists i :: NewestLive(h, i, key, inputs) && Find(Replay(h), key, inputs).value == h[i].artifact
  {
    var slot := Slot(key, Sorted(inputs));
    FindIsServing(h, key, inputs);
    ServingIsLast(h, slot);
    ServedIsLive(h, slot);
    var i := Serving(h, slot);
    MatchesIsSlot(h[i].artifact, key, inputs);
    forall j | i < j < |h| && Live(h, j) ensures !Matches(h[j].artifact, key, inputs) {
      MatchesIsSlot(h[j].artifact, key, inputs);
      assert !Offers(h, j, slot);
    }
  }

  /** A lookup misses exactly when every live artifact it could have returned
      was followed by the supersession of some artifact of the same slot. */
  lemma MissExactly(h: seq<Op>, key: CacheKey, inputs: seq<int>)
    requires FreshIds(h)
    ensures Find(Replay(h), key, inputs).None? <==>
      forall i :: 0 <= i < |h| && Live(h, i) && Matches(h[i].artifact, key, inputs) ==>
        exists j :: i < j < |h| && Retires(h, j, Slot(key, Sorted(inputs)))
  {
    var slot := Slot(key, Sorted(inputs));
    FindIsServing(h, key, inputs);
    ServingIsLast(h, slot);
    ServedIsLive(h, slot);
    var k := Serving(h, slot);
    if k >= 0 {
      MatchesIsSlot(h[k].artifact, key, inputs);
    } else {
      forall i | 0 <= i < |h| && Live(h, i) && Matches(h[i].artifact, key, inputs)
        ensures exists j :: i < j < |h| && Retires(h, j, slot)
      {
        MatchesIsSlot(h[i].artifact, key, inputs);
        assert Offers(h, i, slot);
      }
    }
  }

  /** The cache is not the plain scan of live artifacts: two artifacts share a
      slot, the older one is superseded, and the lookup misses the newer one. */
  lemma SupersedingAnOlderCopyHidesTheLiveOne(key: CacheKey, content: Content) returns (h: seq<Op>)
    ensures FreshIds(h) && Find(Replay(h), key, []).None?
    ensures exists i :: 0 <= i < |h| && Live(h, i) && Matches(h[i].artifact, key, [])
  {
    var older := Artifact(FreshId(0), "output", content, Some(key), Some([]), None);
    h := [PersistOp(older), PersistOp(older.(id := FreshId(1))), SupersedeOp(FreshId(0), FreshId(1))];
    assert h[0].artifact == older && h[2].id == older.id;
    OwnSupersessionRetires(h, 0, 2, Slot(key, Sorted([])));
    FindIsServing(h, key, []);
    assert Live(h, 1) && Matches(h[1].artifact, key, []);
  }
}
