/** `out.setdefault(key(x), []).append(x)`: grouping a list by a key, and what it conserves. */
module Grouping {
  import opened Basics

  function Keys<T, K>(items: seq<T>, key: T -> K): seq<K> {
    seq(|items|, i requires 0 <= i < |items| => key(items[i]))
  }

  /** The items of one group, in the order they stand. */
  function Group<T, K(==)>(items: seq<T>, key: T -> K, k: K): seq<T> {
    if items == [] then []
    else
      var last := items[|items| - 1];
      Group(items[..|items| - 1], key, k) + if key(last) == k then [last] else []
  }

  lemma GroupStep<T, K(!new)>(items: seq<T>, i: nat, key: T -> K)
    requires i < |items|
    ensures Firsts(Keys(items[..i + 1], key)) ==
      if key(items[i]) in Firsts(Keys(items[..i], key)) then Firsts(Keys(items[..i], key))
      else Firsts(Keys(items[..i], key)) + [key(items[i])]
    ensures forall k ::
      Group(items[..i + 1], key, k) == Group(items[..i], key, k) + if key(items[i]) == k then [items[i]] else []
  {
    var ks := Keys(items[..i + 1], key);
    assert ks[..i] == Keys(items[..i], key) && ks[i] == key(items[i]);
    assert items[..i + 1][..i] == items[..i];
  }

  method GroupBy<T, K(==,!new)>(items: seq<T>, key: T -> K) returns (out: Dict<K, seq<T>>)
    ensures out.Valid() && out.keys == Firsts(Keys(items, key))
    ensures forall k :: k in out.vals ==> out.vals[k] == Group(items, key, k)
  {
    out := EmptyDict();
    for i := 0 to |items|
      invariant out.Valid() && out.keys == Firsts(Keys(items[..i], key))
      invariant forall k :: k in out.vals ==> out.vals[k] == Group(items[..i], key, k)
      invariant forall k :: k !in out.vals ==> Group(items[..i], key, k) == []
    {
      GroupStep(items, i, key);
      var k := key(items[i]);
      var grown := (if k in out.vals then out.vals[k] else []) + [items[i]];
      out.PutKeepsValid(k, grown);
      out := out.Put(k, grown);
    }
    assert items[..|items|] == items;
  }

  // --- sums ----------------------------------------------------------------------------------------

  /** Anything that can be summed up in any order. */
  datatype Monoid<!M(!new)> = Monoid(zero: M, plus: (M, M) -> M) {
    ghost predicate Commutes(a: M, b: M) {
      plus(a, b) == plus(b, a)
    }

    ghost predicate Associates(a: M, b: M, c: M) {
      plus(plus(a, b), c) == plus(a, plus(b, c))
    }

    ghost predicate Lawful() {
      && (forall a, b :: Commutes(a, b))
      && (forall a, b, c :: Associates(a, b, c))
      && plus(zero, zero) == zero
    }
  }

  /** `sum(f(x) for x in items)` */
  function Total<T, M(!new)>(items: seq<T>, f: T -> M, add: Monoid<M>): M {
    if items == [] then add.zero else add.plus(Total(items[..|items| - 1], f, add), f(items[|items| - 1]))
  }

  /** The totals of the groups with these keys, added up. */
  function TotalOfGroups<T, K(==), M(!new)>(items: seq<T>, key: T -> K, keys: seq<K>, f: T -> M, add: Monoid<M>): M {
    if keys == [] then add.zero
    else add.plus(TotalOfGroups(items, key, keys[..|keys| - 1], f, add),
                  Total(Group(items, key, keys[|keys| - 1]), f, add))
  }

  lemma {:induction false} NoItems<T, K, M(!new)>(key: T -> K, keys: seq<K>, f: T -> M, add: Monoid<M>)
    requires add.Lawful()
    ensures TotalOfGroups([], key, keys, f, add) == add.zero
    decreases keys
  {
    if keys != [] { NoItems(key, keys[..|keys| - 1], f, add); }
  }

  lemma GroupGrows<T, K, M(!new)>(items: seq<T>, x: T, key: T -> K, k: K, f: T -> M, add: Monoid<M>)
    ensures Total(Group(items + [x], key, k), f, add) ==
      if key(x) == k then add.plus(Total(Group(items, key, k), f, add), f(x)) else Total(Group(items, key, k), f, add)
  {
    var g := Group(items, key, k);
    assert (items + [x])[..|items|] == items;
    if key(x) == k {
      assert (g + [x])[..|g|] == g;
    } else {
      assert g + [] == g;
    }
  }

  lemma {:induction false} OneMore<T, K, M(!new)>(items: seq<T>, x: T, key: T -> K, keys: seq<K>, f: T -> M, add: Monoid<M>)
    requires NoDuplicates(keys) && add.Lawful()
    ensures TotalOfGroups(items + [x], key, keys, f, add) ==
      if key(x) in keys then add.plus(TotalOfGroups(items, key, keys, f, add), f(x))
      else TotalOfGroups(items, key, keys, f, add)
    decreases keys
  {
    if keys != [] {
      var init, k := keys[..|keys| - 1], keys[|keys| - 1];
      OneMore(items, x, key, init, f, add);
      GroupGrows(items, x, key, k, f, add);
      InitAndLast(keys);
      Swap(TotalOfGroups(items, key, init, f, add), f(x), Total(Group(items, key, k), f, add), add);
    }
  }

  lemma Swap<M(!new)>(a: M, b: M, c: M, add: Monoid<M>)
    requires add.Lawful()
    ensures add.plus(add.plus(a, b), c) == add.plus(add.plus(a, c), b)
    ensures add.plus(a, add.plus(c, b)) == add.plus(add.plus(a, c), b)
  {
    assert add.Commutes(b, c) && add.Associates(a, b, c) && add.Associates(a, c, b);
  }

  /** Grouping conserves every total, in whatever order the groups are listed. */
  lemma {:induction false} GroupsConserve<T, K, M(!new)>(items: seq<T>, key: T -> K, keys: seq<K>, f: T -> M, add: Monoid<M>)
    requires NoDuplicates(keys) && add.Lawful() && forall x :: x in items ==> key(x) in keys
    ensures TotalOfGroups(items, key, keys, f, add) == Total(items, f, add)
    decreases items
  {
    if items == [] {
      NoItems(key, keys, f, add);
    } else {
      var init, x := items[..|items| - 1], items[|items| - 1];
      assert items == init + [x];
      GroupsConserve(init, key, keys, f, add);
      OneMore(init, x, key, keys, f, add);
    }
  }

  // --- counting -----------------------------------------------------------------------------------

  function One<T>(x: T): int {
    1
  }

  function Plus(a: int, b: int): int {
    a + b
  }

  const INTS: Monoid<int> := Monoid(0, Plus)

  lemma {:induction false} TotalOfOnes<T>(items: seq<T>)
    ensures Total(items, One, INTS) == |items|
    decreases items
  {
    if items != [] { TotalOfOnes(items[..|items| - 1]); }
  }

  /** Grouping loses no item and repeats none. */
  lemma GroupsCount<T, K>(items: seq<T>, key: T -> K, keys: seq<K>)
    requires NoDuplicates(keys) && forall x :: x in items ==> key(x) in keys
    ensures TotalOfGroups(items, key, keys, One, INTS) == |items|
  {
    GroupsConserve(items, key, keys, One, INTS);
    TotalOfOnes(items);
  }

  lemma KeyIsListed<T, K>(items: seq<T>, key: T -> K, x: T)
    requires x in items
    ensures key(x) in Keys(items, key)
  {
    var i :| 0 <= i < |items| && items[i] == x;
    assert Keys(items, key)[i] == key(x);
  }

  lemma ListedIffBorne<T(!new), K>(items: seq<T>, key: T -> K, k: K)
    ensures k in Keys(items, key) <==> exists x :: x in items && key(x) == k
  {
    if k in Keys(items, key) {
      var i :| 0 <= i < |Keys(items, key)| && Keys(items, key)[i] == k;
      assert items[i] in items && key(items[i]) == k;
    }
    if x :| x in items && key(x) == k { KeyIsListed(items, key, x); }
  }

  lemma {:induction false} GroupMembers<T, K>(items: seq<T>, key: T -> K, k: K, x: T)
    ensures x in Group(items, key, k) <==> x in items && key(x) == k
    decreases items
  {
    if items != [] {
      GroupMembers(items[..|items| - 1], key, k, x);
      assert items == items[..|items| - 1] + [items[|items| - 1]];
    }
  }
}
