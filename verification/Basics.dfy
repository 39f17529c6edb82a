/** Small shared vocabulary: an optional value and Python's insertion-ordered dict. */
module Basics {

  /** Seconds in a day. */
  const DAY := 86400

  /** The team's day is IST, a fixed +5:30. */
  const IST_OFFSET := 19800

  function IstDay(t: int): int {
    (t + IST_OFFSET) / DAY
  }

  datatype Option<+T> = None | Some(value: T)

  /** A Python `dict`: `keys` is the insertion order, `vals` the stored values. */
  datatype Dict<K(==,!new), V> = Dict(keys: seq<K>, vals: map<K, V>) {
    ghost predicate Valid() {
      && (forall k :: k in keys <==> k in vals)
      && (forall i, j :: 0 <= i < j < |keys| ==> keys[i] != keys[j])
    }

    /** `d[k] = v`: a new key goes last, an existing key keeps its place. */
    function Put(k: K, v: V): Dict<K, V> {
      Dict(if k in vals then keys else keys + [k], vals[k := v])
    }

    lemma PutKeepsValid(k: K, v: V)
      requires Valid()
      ensures Put(k, v).Valid()
    {
      var d := Put(k, v);
      assert forall x :: x in d.keys <==> x in keys || x == k;
    }
  }

  function EmptyDict<K(==,!new), V>(): Dict<K, V> {
    Dict([], map[])
  }

  /** Some number above everything in a finite set: a fresh id. */
  lemma {:induction false} BoundOf(s: set<nat>) returns (n: nat)
    ensures forall x :: x in s ==> x < n
    decreases s
  {
    if s == {} {
      n := 0;
    } else {
      var x :| x in s;
      var m := BoundOf(s - {x});
      n := if x < m then m else x + 1;
      assert forall y :: y in s ==> y == x || y in s - {x};
    }
  }

  lemma {:induction false} SubsetCard<T>(s: set<T>, t: set<T>)
    requires s <= t
    ensures |s| <= |t|
    decreases s
  {
    if s != {} {
      var x :| x in s;
      SubsetCard(s - {x}, t - {x});
    }
  }

  lemma ConcatAssoc<T>(a: seq<T>, b: seq<T>, c: seq<T>)
    ensures (a + b) + c == a + (b + c)
  {
  }

  lemma InitAndLast<T>(s: seq<T>)
    requires s != []
    ensures forall x :: x in s <==> x in s[..|s| - 1] || x == s[|s| - 1]
  {
    assert s == s[..|s| - 1] + [s[|s| - 1]];
  }

  lemma InTwoParts<T>(s: seq<T>, n: nat)
    requires n <= |s|
    ensures forall x :: x in s <==> x in s[..n] || x in s[n..]
  {
    assert s == s[..n] + s[n..];
  }

  predicate NoDuplicates<T(==)>(s: seq<T>) {
    forall i, j :: 0 <= i < j < |s| ==> s[i] != s[j]
  }

  lemma {:induction false} DistinctCard<T>(s: seq<T>)
    requires NoDuplicates(s)
    ensures |set x | x in s| == |s|
    decreases s
  {
    if s != [] {
      var init, last := s[..|s| - 1], s[|s| - 1];
      DistinctCard(init);
      assert s == init + [last] && last !in init;
      assert (set x | x in s) == (set x | x in init) + {last};
    }
  }

  /** `list(dict.fromkeys(s))`: the distinct elements, in order of first appearance. */
  function Firsts<T(==,!new)>(s: seq<T>): (r: seq<T>)
    ensures NoDuplicates(r) && (forall t :: t in r <==> t in s)
  {
    if s == [] then []
    else
      var rest := Firsts(s[..|s| - 1]);
      assert s == s[..|s| - 1] + [s[|s| - 1]];
      if s[|s| - 1] in rest then rest else rest + [s[|s| - 1]]
  }

  /** Whatever is kept first was there before anything kept later. */
  lemma {:induction false} FirstsInOrder<T(!new)>(s: seq<T>, i: nat, j: nat)
    requires i < j < |Firsts(s)|
    ensures exists k :: 0 <= k < |s| && s[k] == Firsts(s)[i] && Firsts(s)[j] !in s[..k + 1]
    decreases s
  {
    var init, last := s[..|s| - 1], s[|s| - 1];
    var rest := Firsts(init);
    if j < |rest| {
      FirstsInOrder(init, i, j);
      var k :| 0 <= k < |init| && init[k] == rest[i] && rest[j] !in init[..k + 1];
      assert s[k] == rest[i] && s[..k + 1] == init[..k + 1];
    } else {
      assert rest[i] in init;
      var k :| 0 <= k < |init| && init[k] == rest[i];
      assert s[k] == rest[i];
      assert last !in init && forall m :: 0 <= m < k + 1 ==> s[..k + 1][m] == init[m];
    }
  }
}
