/** Python's `sorted`: stable, whatever the key. */
module Sorting {
  import opened Basics

  /** `lt` compares by some key: equal keys are interchangeable. */
  ghost predicate WeakOrder<T(!new)>(lt: (T, T) -> bool) {
    && (forall a, b :: lt(a, b) ==> !lt(b, a))
    && (forall a, b, c :: !lt(a, b) && !lt(b, c) ==> !lt(a, c))
  }

  function Insert<T>(x: T, s: seq<T>, lt: (T, T) -> bool): seq<T> {
    if s == [] || !lt(s[0], x) then [x] + s else [s[0]] + Insert(x, s[1..], lt)
  }

  function StableSort<T>(s: seq<T>, lt: (T, T) -> bool): seq<T> {
    if s == [] then [] else Insert(s[0], StableSort(s[1..], lt), lt)
  }

  predicate Ordered<T>(s: seq<T>, lt: (T, T) -> bool) {
    forall i, j :: 0 <= i < j < |s| ==> !lt(s[j], s[i])
  }

  /** The elements with property `p`, in the order they stand. */
  function Where<T>(s: seq<T>, p: T -> bool): seq<T> {
    if s == [] then [] else (if p(s[0]) then [s[0]] else []) + Where(s[1..], p)
  }

  lemma {:induction false} WhereStep<T>(s: seq<T>, i: nat, p: T -> bool)
    requires i < |s|
    ensures Where(s[..i + 1], p) == Where(s[..i], p) + if p(s[i]) then [s[i]] else []
    decreases s
  {
    if i == 0 {
      assert s[..1][1..] == [];
    } else {
      WhereStep(s[1..], i - 1, p);
      assert s[..i + 1][1..] == s[1..][..i] && s[..i][1..] == s[1..][..i - 1];
    }
  }

  lemma {:induction false} WhereFinds<T>(s: seq<T>, p: T -> bool, x: T)
    ensures x in Where(s, p) <==> x in s && p(x)
    decreases s
  {
    if s != [] {
      WhereFinds(s[1..], p, x);
      assert s == [s[0]] + s[1..];
    }
  }

  lemma {:induction false} InsertKeepsAll<T>(x: T, s: seq<T>, lt: (T, T) -> bool)
    ensures multiset(Insert(x, s, lt)) == multiset(s) + multiset{x}
    decreases s
  {
    if s != [] && lt(s[0], x) {
      InsertKeepsAll(x, s[1..], lt);
      assert s == [s[0]] + s[1..];
    }
  }

  lemma {:induction false} InsertOrders<T(!new)>(x: T, s: seq<T>, lt: (T, T) -> bool)
    requires WeakOrder(lt) && Ordered(s, lt)
    ensures Ordered(Insert(x, s, lt), lt)
    decreases s
  {
    var r := Insert(x, s, lt);
    if s == [] || !lt(s[0], x) {
      assert r[1..] == s;
      assert forall k :: 0 <= k < |s| ==> !lt(s[k], s[0]);
    } else {
      InsertOrders(x, s[1..], lt);
      InsertKeepsAll(x, s[1..], lt);
      assert r[1..] == Insert(x, s[1..], lt);
      forall k | 1 <= k < |r|
        ensures !lt(r[k], r[0])
      {
        assert r[k] == r[1..][k - 1] && r[k] in multiset(r[1..]);
        assert r[k] == x || r[k] in s[1..];
      }
      forall j, k | 0 <= j < k < |r|
        ensures !lt(r[k], r[j])
      {
        if j > 0 { assert r[1..][j - 1] == r[j] && r[1..][k - 1] == r[k]; }
      }
    }
  }

  lemma {:induction false} InsertIsStable<T>(x: T, s: seq<T>, lt: (T, T) -> bool, p: T -> bool)
    requires p(x) ==> forall y :: y in s && p(y) ==> !lt(y, x)
    ensures Where(Insert(x, s, lt), p) == (if p(x) then [x] else []) + Where(s, p)
    decreases s
  {
    if s == [] || !lt(s[0], x) {
      WhereOfCons(x, s, p);
    } else {
      assert s[0] in s;
      InsertIsStable(x, s[1..], lt, p);
      WhereOfCons(s[0], Insert(x, s[1..], lt), p);
    }
  }

  lemma WhereOfCons<T>(x: T, s: seq<T>, p: T -> bool)
    ensures Where([x] + s, p) == (if p(x) then [x] else []) + Where(s, p)
  {
    assert ([x] + s)[1..] == s;
  }

  lemma {:induction false} SortKeepsAll<T>(s: seq<T>, lt: (T, T) -> bool)
    ensures multiset(StableSort(s, lt)) == multiset(s)
    decreases s
  {
    if s != [] {
      SortKeepsAll(s[1..], lt);
      InsertKeepsAll(s[0], StableSort(s[1..], lt), lt);
      assert s == [s[0]] + s[1..];
    }
  }

  /** Sorting orders the list and keeps elements with equal keys in their places. */
  lemma {:induction false} SortOrders<T(!new)>(s: seq<T>, lt: (T, T) -> bool, p: T -> bool)
    requires WeakOrder(lt) && forall a, b :: p(a) && p(b) ==> !lt(a, b)
    ensures Ordered(StableSort(s, lt), lt)
    ensures Where(StableSort(s, lt), p) == Where(s, p)
    decreases s
  {
    if s != [] {
      SortOrders(s[1..], lt, p);
      InsertOrders(s[0], StableSort(s[1..], lt), lt);
      InsertIsStable(s[0], StableSort(s[1..], lt), lt, p);
    }
  }

  lemma SortedMembers<T>(s: seq<T>, lt: (T, T) -> bool)
    ensures |StableSort(s, lt)| == |s| && forall x :: x in StableSort(s, lt) <==> x in s
  {
    SortKeepsAll(s, lt);
    forall x
      ensures x in StableSort(s, lt) <==> x in s
    {
      assert x in multiset(StableSort(s, lt)) <==> x in multiset(s);
    }
    assert |multiset(StableSort(s, lt))| == |multiset(s)|;
  }

  lemma {:induction false} BagOfDistinct<T>(s: seq<T>, x: T)
    requires NoDuplicates(s)
    ensures multiset(s)[x] <= 1
    decreases s
  {
    if s != [] {
      var init, last := s[..|s| - 1], s[|s| - 1];
      BagOfDistinct(init, x);
      assert s == init + [last];
      assert last !in init;
    }
  }

  lemma SortedIsDistinct<T>(s: seq<T>, lt: (T, T) -> bool)
    requires NoDuplicates(s)
    ensures NoDuplicates(StableSort(s, lt))
  {
    var t := StableSort(s, lt);
    SortKeepsAll(s, lt);
    forall i, j | 0 <= i < j < |t|
      ensures t[i] != t[j]
    {
      BagOfDistinct(s, t[i]);
      if t[i] == t[j] { TwiceInBag(t, i, j); }
    }
  }

  lemma TwiceInBag<T>(t: seq<T>, i: nat, j: nat)
    requires i < j < |t| && t[i] == t[j]
    ensures multiset(t)[t[i]] >= 2
  {
    var before, after := t[..j], t[j + 1..];
    assert before[i] == t[i] && t[i] in multiset(before);
    assert t == before + [t[j]] + after;
    assert multiset(t) == multiset(before) + multiset{t[j]} + multiset(after);
  }

  // --- text order ------------------------------------------------------------------------------

  /** Python compares strings character by character. */
  predicate TextBefore(a: string, b: string)
    decreases a
  {
    b != "" && (a == "" || a[0] < b[0] || (a[0] == b[0] && TextBefore(a[1..], b[1..])))
  }

  lemma {:induction false} TextTotal(a: string, b: string)
    ensures !TextBefore(a, b) && !TextBefore(b, a) ==> a == b
    ensures TextBefore(a, b) ==> !TextBefore(b, a)
    decreases a
  {
    if a != "" && b != "" && a[0] == b[0] {
      TextTotal(a[1..], b[1..]);
      assert a == [a[0]] + a[1..] && b == [b[0]] + b[1..];
    }
  }

  lemma {:induction false} TextChain(a: string, b: string, c: string)
    requires !TextBefore(a, b) && !TextBefore(b, c)
    ensures !TextBefore(a, c)
    decreases a
  {
    if a != "" && b != "" && c != "" && a[0] == b[0] == c[0] {
      TextChain(a[1..], b[1..], c[1..]);
    }
  }

  lemma TextIsOrder()
    ensures WeakOrder(TextBefore)
  {
    forall a, b | TextBefore(a, b)
      ensures !TextBefore(b, a)
    {
      TextTotal(a, b);
    }
    forall a, b, c | !TextBefore(a, b) && !TextBefore(b, c)
      ensures !TextBefore(a, c)
    {
      TextChain(a, b, c);
    }
  }
}
