/** Counting elements of sequences, and collecting what each element adds. */
module Sequences {

  lemma RepeatedCounts<T>(s: seq<T>, i: nat, j: nat)
    requires i < j < |s| && s[i] == s[j]
    ensures multiset(s)[s[i]] >= 2
  {
    assert s == s[..j] + s[j..] && s[i] in s[..j] && s[j] in s[j..];
  }

  /** Two equal elements, at two positions. */
  lemma TwicePositions<T>(s: seq<T>, x: T) returns (i: nat, j: nat)
    requires multiset(s)[x] >= 2
    ensures i < j < |s| && s[i] == x && s[j] == x
  {
    i :| i < |s| && s[i] == x;
    var rest := s[..i] + s[i + 1..];
    assert s == s[..i] + [s[i]] + s[i + 1..];
    assert multiset(rest)[x] >= 1;
    var k :| 0 <= k < |rest| && rest[k] == x;
    j := if k < i then k else k + 1;
    if j < i {
      i, j := j, i;
    }
  }

  lemma SameMembers<T>(s: seq<T>, order: seq<T>)
    requires multiset(s) == multiset(order)
    ensures forall x :: x in s <==> x in order
  {
    assert forall x :: x in s <==> x in multiset(s);
    assert forall x :: x in order <==> x in multiset(order);
  }

  lemma ShortPermutation<T>(a: seq<T>, b: seq<T>)
    requires multiset(a) == multiset(b) && |a| <= 1
    ensures a == b
  {
    assert |a| == |multiset(a)| && |b| == |multiset(b)|;
    if |a| == 1 {
      assert a[0] in multiset(b);
    }
  }

  // ----- collecting -----

  function Collect<E, T>(f: E -> seq<T>, s: seq<E>): seq<T> {
    if s == [] then [] else f(s[0]) + Collect(f, s[1..])
  }

  lemma {:induction false} CollectSplit<E, T>(f: E -> seq<T>, a: seq<E>, b: seq<E>)
    ensures Collect(f, a + b) == Collect(f, a) + Collect(f, b)
  {
    if a == [] {
      assert a + b == b;
    } else {
      CollectSplit(f, a[1..], b);
      assert (a + b)[1..] == a[1..] + b;
    }
  }

  lemma OneLess<E>(e: E, a: seq<E>, b: seq<E>, whole: multiset<E>)
    requires whole == multiset{e} + multiset(a) == multiset{e} + multiset(b)
    ensures multiset(a) == multiset(b)
  {
    forall x ensures multiset(a)[x] == multiset(b)[x] {
      assert whole[x] == multiset{e}[x] + multiset(a)[x] == multiset{e}[x] + multiset(b)[x];
    }
  }

  lemma WithoutOne<E>(s: seq<E>, order: seq<E>) returns (k: nat)
    requires s != [] && multiset(s) == multiset(order)
    ensures k < |order| && order[k] == s[0] && order == order[..k] + [order[k]] + order[k + 1..]
    ensures multiset(s[1..]) == multiset(order[..k] + order[k + 1..])
  {
    assert s[0] in multiset(order);
    k :| k < |order| && order[k] == s[0];
    assert s == [s[0]] + s[1..];
    assert order == order[..k] + [order[k]] + order[k + 1..];
    OneLess(s[0], s[1..], order[..k] + order[k + 1..], multiset(s));
  }

  /** Permuting the elements permutes what they add. */
  lemma {:induction false} CollectPermute<E, T>(f: E -> seq<T>, s: seq<E>, order: seq<E>)
    requires multiset(s) == multiset(order)
    ensures multiset(Collect(f, s)) == multiset(Collect(f, order))
  {
    if s != [] {
      var k := WithoutOne(s, order);
      var front, x, back := order[..k], [order[k]], order[k + 1..];
      CollectPermute(f, s[1..], front + back);
      CollectSplit(f, front, back);
      CollectSplit(f, front + x, back);
      CollectSplit(f, front, x);
      assert x[1..] == [] && Collect(f, x) == f(x[0]) + [] == f(x[0]);
    } else {
      assert |multiset(order)| == 0;
    }
  }

  lemma {:induction false} CollectMembers<E, T>(f: E -> seq<T>, s: seq<E>, x: T)
    ensures x in Collect(f, s) <==> exists e :: e in s && x in f(e)
  {
    if s != [] {
      CollectMembers(f, s[1..], x);
      assert s == [s[0]] + s[1..];
      if e :| e in s && x in f(e) {
        assert e == s[0] || e in s[1..];
      }
    }
  }
}
