/**
  Walks over a finite set of arcs, and the growing balls a breadth-first search computes.
 */
module Reachability {
  import opened Basics

  // --- adding round after round -----------------------------------------------------------------

  /** `s` after `k` rounds, each adding what `next` finds from all there is. */
  function Rounds<T(==)>(next: set<T> -> set<T>, s: set<T>, k: nat): set<T> {
    if k == 0 then s else Rounds(next, s, k - 1) + next(Rounds(next, s, k - 1))
  }

  lemma {:induction false} RoundsGrow<T>(next: set<T> -> set<T>, s: set<T>, j: nat, k: nat)
    requires j <= k
    ensures Rounds(next, s, j) <= Rounds(next, s, k)
    decreases k
  {
    if j < k { RoundsGrow(next, s, j, k - 1); }
  }

  /** Once a round adds nothing, no later round does. */
  lemma {:induction false} RoundsStay<T>(next: set<T> -> set<T>, s: set<T>, j: nat, k: nat)
    requires j <= k && Rounds(next, s, j + 1) == Rounds(next, s, j)
    ensures Rounds(next, s, k) == Rounds(next, s, j)
    decreases k
  {
    if j < k { RoundsStay(next, s, j, k - 1); }
  }

  lemma {:induction false} RoundsInside<T(!new)>(next: set<T> -> set<T>, s: set<T>, k: nat, u: set<T>)
    requires s <= u && forall x :: next(x) <= u
    ensures Rounds(next, s, k) <= u
    decreases k
  {
    if k > 0 { RoundsInside(next, s, k - 1, u); }
  }

  /** Each round that is not the last finds somebody new. */
  lemma {:induction false} RoundsCard<T>(next: set<T> -> set<T>, s: set<T>, k: nat)
    ensures |Rounds(next, s, k)| >= k + |s| || Rounds(next, s, k + 1) == Rounds(next, s, k)
    decreases k
  {
    if k > 0 {
      RoundsCard(next, s, k - 1);
      if Rounds(next, s, k) != Rounds(next, s, k - 1) {
        RoundsGrow(next, s, k - 1, k);
        CardLess(Rounds(next, s, k - 1), Rounds(next, s, k));
      }
    }
  }

  lemma CardLess<T>(s: set<T>, t: set<T>)
    requires s <= t && s != t
    ensures |s| < |t|
  {
    var x :| x in t && x !in s;
    SubsetCard(s, t - {x});
  }

  lemma NoRoom<T>(s: set<T>, t: set<T>)
    requires s <= t && |t| <= |s|
    ensures s == t
  {
    if s != t { CardLess(s, t); }
  }

  /** Inside `u`, as many rounds as there are others beside `s` find them all. */
  lemma RoundsSaturate<T(!new)>(next: set<T> -> set<T>, s: set<T>, k: nat, u: set<T>)
    requires s <= u && (forall x :: next(x) <= u) && |s| <= |u| && k >= |u| - |s|
    ensures Rounds(next, s, k) == Rounds(next, s, |u| - |s|)
  {
    var n := |u| - |s|;
    RoundsCard(next, s, n);
    RoundsGrow(next, s, n, n + 1);
    RoundsInside(next, s, n + 1, u);
    SubsetCard(Rounds(next, s, n + 1), u);
    if |Rounds(next, s, n)| >= n + |s| { NoRoom(Rounds(next, s, n), Rounds(next, s, n + 1)); }
    RoundsStay(next, s, n, k);
  }

  /** A round that found nobody new was the last. */
  lemma RoundsEnd<T>(next: set<T> -> set<T>, s: set<T>, j: nat, k: nat)
    requires 0 < j <= k && Rounds(next, s, j) <= Rounds(next, s, j - 1)
    ensures Rounds(next, s, k) == Rounds(next, s, j)
  {
    RoundsGrow(next, s, j - 1, j);
    RoundsStay(next, s, j - 1, k);
    RoundsStay(next, s, j - 1, j);
  }

  // --- walks ----------------------------------------------------------------------------------------

  type Arcs<T> = seq<(T, T)>

  /** The nodes with an arc into `s`. */
  function Into<T(==)>(arcs: Arcs<T>, s: set<T>): set<T> {
    if arcs == [] then {}
    else
      var last := arcs[|arcs| - 1];
      Into(arcs[..|arcs| - 1], s) + if last.1 in s then {last.0} else {}
  }

  function Sources<T(==)>(arcs: Arcs<T>): set<T> {
    set a | a in arcs :: a.0
  }

  lemma {:induction false} IntoIs<T>(arcs: Arcs<T>, s: set<T>, x: T)
    ensures x in Into(arcs, s) <==> exists a :: a in arcs && a.1 in s && a.0 == x
    decreases arcs
  {
    if arcs != [] {
      IntoIs(arcs[..|arcs| - 1], s, x);
      assert arcs == arcs[..|arcs| - 1] + [arcs[|arcs| - 1]];
    }
  }

  lemma {:induction false} IntoNone<T>(arcs: Arcs<T>)
    ensures Into(arcs, {}) == {}
    decreases arcs
  {
    if arcs != [] { IntoNone(arcs[..|arcs| - 1]); }
  }

  lemma {:induction false} IntoSources<T>(arcs: Arcs<T>, s: set<T>)
    ensures Into(arcs, s) <= Sources(arcs)
    decreases arcs
  {
    if arcs != [] {
      IntoSources(arcs[..|arcs| - 1], s);
      assert arcs == arcs[..|arcs| - 1] + [arcs[|arcs| - 1]];
    }
  }

  lemma {:induction false} IntoUnion<T>(arcs: Arcs<T>, s: set<T>, t: set<T>)
    ensures Into(arcs, s + t) == Into(arcs, s) + Into(arcs, t)
    decreases arcs
  {
    if arcs != [] { IntoUnion(arcs[..|arcs| - 1], s, t); }
  }

  /** Everything within `k` arcs of `s`. */
  function Ball<T(==)>(arcs: Arcs<T>, s: set<T>, k: nat): set<T> {
    if k == 0 then s else Ball(arcs, s, k - 1) + Into(arcs, Ball(arcs, s, k - 1))
  }

  function Before<T(==)>(arcs: Arcs<T>): set<T> -> set<T> {
    s => Into(arcs, s)
  }

  lemma {:induction false} BallIsRounds<T>(arcs: Arcs<T>, s: set<T>, k: nat)
    ensures Ball(arcs, s, k) == Rounds(Before(arcs), s, k)
    decreases k
  {
    if k > 0 { BallIsRounds(arcs, s, k - 1); }
  }

  predicate Walk<T(==)>(arcs: Arcs<T>, p: seq<T>) {
    p != [] && forall i :: 0 <= i < |p| - 1 ==> (p[i], p[i + 1]) in arcs
  }

  /** A walk of exactly `len` arcs from `n` to a member of `s`. */
  ghost predicate WalkTo<T(!new)>(arcs: Arcs<T>, n: T, s: set<T>, len: nat) {
    exists p: seq<T> :: Walk(arcs, p) && |p| == len + 1 && p[0] == n && p[len] in s
  }

  /** The search's sets are exactly bounded reachability. */
  lemma {:induction false} BallIsWalks<T(!new)>(arcs: Arcs<T>, s: set<T>, k: nat, n: T)
    ensures n in Ball(arcs, s, k) <==> exists len: nat :: len <= k && WalkTo(arcs, n, s, len)
    decreases k
  {
    if k == 0 {
      if n in s {
        assert Walk(arcs, [n]) && |[n]| == 0 + 1;
        assert WalkTo(arcs, n, s, 0);
      }
    } else {
      BallIsWalks(arcs, s, k - 1, n);
      IntoIs(arcs, Ball(arcs, s, k - 1), n);
      if n in Into(arcs, Ball(arcs, s, k - 1)) {
        var a :| a in arcs && a.1 in Ball(arcs, s, k - 1) && a.0 == n;
        BallIsWalks(arcs, s, k - 1, a.1);
        var len: nat :| len <= k - 1 && WalkTo(arcs, a.1, s, len);
        WalkGrows(arcs, n, a.1, s, len);
      }
      if len: nat :| len <= k && WalkTo(arcs, n, s, len) {
        if len == k {
          var p :| Walk(arcs, p) && |p| == k + 1 && p[0] == n && p[k] in s;
          assert Walk(arcs, p[1..]) && |p[1..]| == k - 1 + 1;
          assert WalkTo(arcs, p[1], s, k - 1);
          BallIsWalks(arcs, s, k - 1, p[1]);
          var a := (p[0], p[1]);
          assert a in arcs && a.1 in Ball(arcs, s, k - 1) && a.0 == n;
        }
      }
    }
  }

  lemma WalkGrows<T(!new)>(arcs: Arcs<T>, n: T, m: T, s: set<T>, len: nat)
    requires (n, m) in arcs && WalkTo(arcs, m, s, len)
    ensures WalkTo(arcs, n, s, len + 1)
  {
    var p :| Walk(arcs, p) && |p| == len + 1 && p[0] == m && p[len] in s;
    var q := [n] + p;
    assert Walk(arcs, q) && q[len + 1] in s;
  }

  /** Past as many rounds as there are sources beside `s`, the ball is complete. */
  lemma BallSaturates<T(!new)>(arcs: Arcs<T>, s: set<T>, k: nat)
    requires s <= Sources(arcs) && |s| <= |Sources(arcs)| && k >= |Sources(arcs)| - |s|
    ensures Ball(arcs, s, k) == Ball(arcs, s, |Sources(arcs)| - |s|)
  {
    BallIsRounds(arcs, s, k);
    BallIsRounds(arcs, s, |Sources(arcs)| - |s|);
    forall x
      ensures Before(arcs)(x) <= Sources(arcs)
    {
      IntoSources(arcs, x);
    }
    RoundsSaturate(Before(arcs), s, k, Sources(arcs));
  }

  /** A round that found nobody new was the last. */
  lemma BallEnd<T>(arcs: Arcs<T>, s: set<T>, j: nat, k: nat)
    requires 0 < j <= k && Ball(arcs, s, j) <= Ball(arcs, s, j - 1)
    ensures Ball(arcs, s, k) == Ball(arcs, s, j)
  {
    BallIsRounds(arcs, s, j);
    BallIsRounds(arcs, s, j - 1);
    BallIsRounds(arcs, s, k);
    RoundsEnd(Before(arcs), s, j, k);
  }

  lemma {:induction false} BallOfNone<T>(arcs: Arcs<T>, k: nat)
    ensures Ball(arcs, {}, k) == {}
    decreases k
  {
    if k > 0 {
      BallOfNone(arcs, k - 1);
      IntoNone(arcs);
    }
  }
}
