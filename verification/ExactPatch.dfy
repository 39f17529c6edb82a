/**
  Exact-match patching: Python's `str.count` and `str.replace(..., 1)`, and the two appliers
  built on them, `fix_agent._apply_one` at review and `fix_mr._reapply` at commit.
 */
module ExactPatch {
  import opened Basics
  import opened PyText

  // --- str.count and str.replace ---------------------------------------------------------

  /** `str.count`: the leftmost non-overlapping scan, from `i` on. */
  function CountFrom(s: string, b: string, i: nat): nat
    requires b != ""
    decreases |s| - i
  {
    var f := FindFrom(s, b, i);
    if f.None? then 0 else 1 + CountFrom(s, b, f.value + |b|)
  }

  function Count(s: string, b: string): nat
    requires b != ""
  {
    CountFrom(s, b, 0)
  }

  /** `s.replace(b, a, 1)` */
  function ReplaceFirst(s: string, b: string, a: string): string {
    var f := FindFrom(s, b, 0);
    if f.None? then s else s[..f.value] + a + s[f.value + |b|..]
  }

  lemma CountUnfolds(s: string, b: string)
    requires b != ""
    ensures var f := FindFrom(s, b, 0);
      Count(s, b) == 1 <==> f.Some? && FindFrom(s, b, f.value + |b|).None?
  {
    hide FindFrom, Occurs;
    var f := FindFrom(s, b, 0);
    if f.Some? { CountIsZero(s, b, f.value + |b|); }
  }

  lemma CountIsZero(s: string, b: string, i: nat)
    requires b != ""
    ensures CountFrom(s, b, i) == 0 <==> FindFrom(s, b, i).None?
  {
    hide FindFrom, Occurs;
  }

  /** The only occurrence the scan sees: none starts before it and none past its end. */
  ghost predicate LoneFind(s: string, b: string, p: nat) {
    Occurs(s, b, p) && (forall q: nat :: q < p ==> !Occurs(s, b, q)) && forall q: nat :: q >= p + |b| ==> !Occurs(s, b, q)
  }

  /** `str.count` says one: an occurrence, and none that starts past its end. */
  lemma CountIsOne(s: string, b: string)
    requires b != ""
    ensures Count(s, b) == 1 <==> exists p: nat :: LoneFind(s, b, p)
  {
    CountUnfolds(s, b);
    var f := FindFrom(s, b, 0);
    if p: nat :| LoneFind(s, b, p) {
      assert f == Some(p);
    }
    if f.Some? && FindFrom(s, b, f.value + |b|).None? { assert LoneFind(s, b, f.value); }
  }

  ghost predicate Unique(s: string, b: string) {
    exists p: nat :: Occurs(s, b, p) && forall q: nat :: Occurs(s, b, q) ==> q == p
  }

  /** `b` overlaps a shifted copy of itself, as "aa" and "abcab" do. */
  ghost predicate Bordered(b: string) {
    exists k :: 0 < k < |b| && b[k..] == b[..|b| - k]
  }

  lemma UniqueCountsOne(s: string, b: string)
    requires b != "" && Unique(s, b)
    ensures Count(s, b) == 1
  {
    CountIsOne(s, b);
    var p: nat :| Occurs(s, b, p) && forall q: nat :: Occurs(s, b, q) ==> q == p;
    assert LoneFind(s, b, p);
  }

  lemma OverlapIsBorder(s: string, b: string, p: nat, k: nat)
    requires Occurs(s, b, p) && Occurs(s, b, p + k) && 0 < k < |b|
    ensures b[k..] == b[..|b| - k]
  {
    forall i | 0 <= i < |b| - k
      ensures b[k..][i] == b[..|b| - k][i]
    {
      assert s[p..p + |b|][k + i] == s[p + k..p + k + |b|][i];
    }
  }

  lemma CountOneIsUnique(s: string, b: string)
    requires b != "" && !Bordered(b) && Count(s, b) == 1
    ensures Unique(s, b)
  {
    CountIsOne(s, b);
    var p: nat :| LoneFind(s, b, p);
    forall q: nat | Occurs(s, b, q)
      ensures q == p
    {
      if p < q { OverlapIsBorder(s, b, p, q - p); }
    }
  }

  /** A bordered snippet against its own overlapped copy counts once and occurs twice. */
  lemma OverlapFoolsCount(b: string, k: nat) returns (s: string)
    requires 0 < k < |b| && b[k..] == b[..|b| - k]
    ensures Count(s, b) == 1 && !Unique(s, b)
  {
    s := b[..k] + b;
    assert s[..|b|] == b[..k] + b[..|b| - k] == b[..k] + b[k..] == b;
    assert Occurs(s, b, 0);
    assert s[k..k + |b|] == b;
    assert Occurs(s, b, k);
    CountIsOne(s, b);
    assert LoneFind(s, b, 0);
  }

  /**
    The appliers promise to refuse a snippet that is not unique.  What they test is the count,
    and the two agree on every text exactly when the snippet does not overlap itself.
   */
  lemma CountTestsUniquenessIff(b: string)
    requires b != ""
    ensures (forall s :: Count(s, b) == 1 <==> Unique(s, b)) <==> !Bordered(b)
  {
    if Bordered(b) {
      var k :| 0 < k < |b| && b[k..] == b[..|b| - k];
      var s := OverlapFoolsCount(b, k);
    } else {
      forall s
        ensures Count(s, b) == 1 <==> Unique(s, b)
      {
        if Unique(s, b) { UniqueCountsOne(s, b); }
        if Count(s, b) == 1 { CountOneIsUnique(s, b); }
      }
    }
  }

  // --- review: _apply_one and the per-file loop ----------------------------------------------

  datatype Refusal = EmptyBefore | NoMatch | NotUnique | NotFetched

  datatype Edit = Edit(before: string, after: string)

  /** An edit with its outcome, as the review shows it. */
  datatype Reviewed = Reviewed(edit: Edit, error: Option<Refusal>) {
    predicate Applied() { error.None? }
  }

  function ApplyOne(raw: string, e: Edit): (string, Option<Refusal>) {
    if e.before == "" then (raw, Some(EmptyBefore))
    else if Count(raw, e.before) == 0 then (raw, Some(NoMatch))
    else if Count(raw, e.before) > 1 then (raw, Some(NotUnique))
    else (ReplaceFirst(raw, e.before, e.after), None)
  }

  /** What becomes of an edit: the snippet decides, and never what it is replaced with. */
  lemma ApplyOneIff(raw: string, e: Edit)
    ensures var (next, error) := ApplyOne(raw, e);
      && (error == None <==> e.before != "" && exists p: nat :: LoneFind(raw, e.before, p))
      && (error == Some(EmptyBefore) <==> e.before == "")
      && (error == Some(NoMatch) <==> e.before != "" && forall p: nat :: !Occurs(raw, e.before, p))
      && error != Some(NotFetched) && (error.Some? ==> next == raw)
  {
    if e.before != "" {
      CountIsOne(raw, e.before);
      CountIsZero(raw, e.before, 0);
      NoneFound(raw, e.before);
    }
  }

  lemma NoneFound(s: string, b: string)
    ensures FindFrom(s, b, 0) == None <==> forall p: nat :: !Occurs(s, b, p)
  {
  }

  /** The content after the edits, and each edit's outcome against the content it met. */
  function Review(raw: string, es: seq<Edit>): (string, seq<Reviewed>) {
    if es == [] then (raw, [])
    else
      var (cur, results) := Review(raw, es[..|es| - 1]);
      var (next, error) := ApplyOne(cur, es[|es| - 1]);
      (if error.None? then next else cur, results + [Reviewed(es[|es| - 1], error)])
  }

  method ReviewFile(raw: string, es: seq<Edit>) returns (cur: string, results: seq<Reviewed>)
    ensures (cur, results) == Review(raw, es)
  {
    cur, results := raw, [];
    for i := 0 to |es|
      invariant (cur, results) == Review(raw, es[..i])
    {
      assert es[..i + 1][..i] == es[..i];
      var (next, error) := ApplyOne(cur, es[i]);
      results := results + [Reviewed(es[i], error)];
      if error.None? { cur := next; }
    }
    assert es[..|es|] == es;
  }

  // --- commit: _reapply ------------------------------------------------------------------

  datatype Mismatch = Missing | AmbiguousNow

  function Reapply(raw: string, es: seq<Edit>): (string, seq<Mismatch>) {
    if es == [] then (raw, [])
    else
      var (cur, errs) := Reapply(raw, es[..|es| - 1]);
      var e := es[|es| - 1];
      var n := if e.before == "" then 0 else Count(cur, e.before);
      if n == 1 then (ReplaceFirst(cur, e.before, e.after), errs)
      else (cur, errs + [if n == 0 then Missing else AmbiguousNow])
  }

  /** One more edit at commit: applied, missing or ambiguous by the text as the edits before it have left it. */
  lemma ReapplyOneIff(raw: string, es: seq<Edit>, e: Edit)
    ensures var cur, errs, errs' := Reapply(raw, es).0, Reapply(raw, es).1, Reapply(raw, es + [e]).1;
      && (errs' == errs <==> e.before != "" && exists p: nat :: LoneFind(cur, e.before, p))
      && (errs' == errs + [Missing] <==> e.before == "" || forall p: nat :: !Occurs(cur, e.before, p))
      && (errs' == errs || errs' == errs + [Missing] || errs' == errs + [AmbiguousNow])
      && (errs' != errs ==> Reapply(raw, es + [e]).0 == cur)
  {
    var cur, errs := Reapply(raw, es).0, Reapply(raw, es).1;
    assert (es + [e])[..|es|] == es;
    assert |errs + [Missing]| == |errs| + 1 && (errs + [Missing])[|errs|] == Missing;
    assert |errs + [AmbiguousNow]| == |errs| + 1 && (errs + [AmbiguousNow])[|errs|] == AmbiguousNow;
    if e.before != "" {
      CountIsOne(cur, e.before);
      CountIsZero(cur, e.before, 0);
      NoneFound(cur, e.before);
    }
  }

  method ReapplyFile(raw: string, es: seq<Edit>) returns (cur: string, errs: seq<Mismatch>)
    ensures (cur, errs) == Reapply(raw, es)
  {
    cur, errs := raw, [];
    for i := 0 to |es|
      invariant (cur, errs) == Reapply(raw, es[..i])
    {
      assert es[..i + 1][..i] == es[..i];
      var n := if es[i].before == "" then 0 else Count(cur, es[i].before);
      if n == 1 {
        cur := ReplaceFirst(cur, es[i].before, es[i].after);
      } else {
        errs := errs + [if n == 0 then Missing else AmbiguousNow];
      }
    }
    assert es[..|es|] == es;
  }

  // --- reviewed equals committed -------------------------------------------------------------

  function AppliedEdits(rs: seq<Reviewed>): seq<Edit> {
    if rs == [] then []
    else AppliedEdits(rs[..|rs| - 1]) + if rs[|rs| - 1].Applied() then [rs[|rs| - 1].edit] else []
  }

  /**
    Two separately written appliers, one result: re-applying exactly the edits the review marked
    applied, to the text that was reviewed, commits the content the review showed, with no error.
   */
  lemma {:induction false} ReviewedIsCommitted(raw: string, es: seq<Edit>)
    ensures Reapply(raw, AppliedEdits(Review(raw, es).1)) == (Review(raw, es).0, [])
    decreases es
  {
    if es != [] {
      var init := es[..|es| - 1];
      ReviewedIsCommitted(raw, init);
      var (cur, results) := Review(raw, init);
      var e := es[|es| - 1];
      assert Review(raw, es).1 == results + [Reviewed(e, ApplyOne(cur, e).1)];
      if ApplyOne(cur, e).1.Some? { assert AppliedEdits(results) + [] == AppliedEdits(results); }
    }
  }

  /** The review says something about every edit, in order. */
  lemma {:induction false} ReviewKeepsEdits(raw: string, es: seq<Edit>, i: nat)
    requires i < |es|
    ensures |Review(raw, es).1| == |es| && Review(raw, es).1[i].edit == es[i]
    decreases es
  {
    var n := |es| - 1;
    if n > 0 { ReviewKeepsEdits(raw, es[..n], if i < n then i else 0); }
  }

  function Growth(rs: seq<Reviewed>): int {
    if rs == [] then 0
    else
      var r := rs[|rs| - 1];
      Growth(rs[..|rs| - 1]) + if r.Applied() then |r.edit.after| - |r.edit.before| else 0
  }

  /** Nothing but the applied snippets moves: the length changes by what they say. */
  lemma {:induction false} LengthIsAccountedFor(raw: string, es: seq<Edit>)
    ensures |Review(raw, es).0| == |raw| + Growth(Review(raw, es).1)
    decreases es
  {
    if es != [] {
      LengthIsAccountedFor(raw, es[..|es| - 1]);
      var (cur, results) := Review(raw, es[..|es| - 1]);
      var e := es[|es| - 1];
    }
  }

  /** One occurrence of `b` has become `a`; every other starts inside it. */
  ghost predicate ReplacedAt(s: string, b: string, a: string, s': string, p: nat) {
    && Occurs(s, b, p) && s' == s[..p] + a + s[p + |b|..]
    && forall q: nat :: Occurs(s, b, q) ==> p <= q < p + |b|
  }

  lemma LoneIsReplaced(s: string, b: string, a: string, p: nat)
    requires LoneFind(s, b, p)
    ensures ReplacedAt(s, b, a, ReplaceFirst(s, b, a), p)
  {
    var f := FindFrom(s, b, 0);
    assert f == Some(p);
  }

  /** An edit that was applied replaced its leftmost occurrence and touched nothing around it. */
  lemma AppliedInPlace(raw: string, e: Edit)
    requires ApplyOne(raw, e).1.None?
    ensures exists p: nat :: ReplacedAt(raw, e.before, e.after, ApplyOne(raw, e).0, p)
  {
    CountIsOne(raw, e.before);
    var p: nat :| LoneFind(raw, e.before, p);
    LoneIsReplaced(raw, e.before, e.after, p);
  }
}
