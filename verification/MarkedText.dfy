/**
  rca_agent/summarize.py: a summary is a machine-owned block followed by a human-owned one
  between two markers.  Everything here holds for any pair of markers that are `Sound`.

  A regeneration writes a new machine block, then the human block found in the old text, if any.
  The extraction takes the first start marker, wherever it is, so one inside the machine block
  hides the human block for good.
 */
module MarkedText {
  import opened Basics
  import opened PyText

  datatype Markers = Markers(start: string, end: string)

  /** One line each, opened by '<', and told apart by their sixth letter. */
  ghost predicate Sound(m: Markers) {
    && |m.start| > 5 && |m.end| > 5 && m.start[0] == '<' && m.end[0] == '<' && m.start[5] != m.end[5]
    && '\n' !in m.start && '\n' !in m.end
  }

  ghost predicate Contains(s: string, b: string) {
    !HasNone(s, b, 0)
  }

  /** The first `b` at or after `i` is at `p`. */
  ghost predicate IsFirst(s: string, b: string, i: nat, p: nat) {
    i <= p && Occurs(s, b, p) && forall q: nat :: i <= q < p ==> !Occurs(s, b, q)
  }

  ghost predicate HasNone(s: string, b: string, i: nat) {
    forall q: nat :: i <= q ==> !Occurs(s, b, q)
  }

  // --- extract and regenerate ------------------------------------------------------------------

  /** From after the first start marker to before the first end marker that follows it. */
  function Span(md: string, m: Markers): (r: Option<(nat, nat)>)
    ensures r.Some? ==> r.value.0 <= r.value.1 <= |md|
  {
    var s := FindFrom(md, m.start, 0);
    if s.None? then None
    else
      var e := FindFrom(md, m.end, s.value + |m.start|);
      if e.None? then None else Some((s.value + |m.start|, e.value))
  }

  /** The stripped text between the markers. */
  function Extract(md: string, m: Markers): Option<string> {
    var s := Span(md, m);
    if s.None? then None else Some(Strip(md[s.value.0..s.value.1]))
  }

  function ExtractFrom(existing: Option<string>, m: Markers): Option<string> {
    if existing.None? || existing.value == "" then None else Extract(existing.value, m)
  }

  /** A machine block and a human block. */
  function Rendered(auto: string, h: string, m: Markers): string {
    auto + "\n\n" + m.start + "\n" + h + "\n" + m.end + "\n"
  }

  /** The summary around an already rendered machine block. */
  function WithHuman(auto: string, existing: Option<string>, m: Markers): string {
    var human := ExtractFrom(existing, m);
    if human.Some? && human.value != "" then Rendered(auto, human.value, m) else auto + "\n"
  }

  lemma SpanParts(md: string, m: Markers) returns (i: nat, e: nat)
    requires Span(md, m).Some?
    ensures IsFirst(md, m.start, 0, i) && IsFirst(md, m.end, i + |m.start|, e)
    ensures Span(md, m) == Some((i + |m.start|, e))
  {
    i := FindFrom(md, m.start, 0).value;
    e := FindFrom(md, m.end, i + |m.start|).value;
  }

  lemma SpanBroken(md: string, m: Markers) returns (i: nat)
    requires Contains(md, m.start) && Span(md, m).None?
    ensures IsFirst(md, m.start, 0, i) && HasNone(md, m.end, i + |m.start|)
  {
    i := FindFrom(md, m.start, 0).value;
  }

  // --- where a marker can be -------------------------------------------------------------------

  lemma SliceOfSlice(s: string, lo: nat, hi: nat, i: nat, j: nat)
    requires lo <= hi <= |s| && i <= j <= hi - lo
    ensures s[lo..hi][i..j] == s[lo + i..lo + j]
  {
    forall k | 0 <= k < j - i
      ensures s[lo..hi][i..j][k] == s[lo + i..lo + j][k]
    {
    }
  }

  lemma OccursInPart(s: string, b: string, q: nat, lo: nat, hi: nat)
    requires Occurs(s, b, q) && lo <= q && q + |b| <= hi <= |s|
    ensures Occurs(s[lo..hi], b, q - lo)
  {
    SliceOfSlice(s, lo, hi, q - lo, q - lo + |b|);
  }

  lemma OccursOutside(s: string, b: string, q: nat, lo: nat, hi: nat)
    requires lo <= hi <= |s| && Occurs(s[lo..hi], b, q)
    ensures Occurs(s, b, lo + q)
  {
    SliceOfSlice(s, lo, hi, q, q + |b|);
  }

  lemma OccursInPrefix(s: string, b: string, q: nat, n: nat)
    requires Occurs(s, b, q) && q + |b| <= n <= |s|
    ensures Occurs(s[..n], b, q)
  {
    assert s[..n][q..q + |b|] == s[q..q + |b|];
  }

  /** Before a double line break, only what the text before it holds. */
  lemma FirstAfterBreak(t: string, b: string, n: nat)
    requires n + 2 + |b| <= |t| && t[n] == '\n' && t[n + 1] == '\n' && '\n' !in b && b != ""
    requires !Contains(t[..n], b) && Occurs(t, b, n + 2)
    ensures IsFirst(t, b, 0, n + 2)
  {
    if i: nat :| i < n + 2 && Occurs(t, b, i) {
      OccursInPrefix(t, b, i, n);
      assert false;
    }
  }

  /** The first `b` at or after `lo` when the line between `lo` and `hi` holds none. */
  lemma FirstAfterLine(t: string, b: string, lo: nat, hi: nat)
    requires lo < hi < |t| && t[lo] == '\n' && t[hi] == '\n' && '\n' !in b && b != ""
    requires !Contains(t[lo + 1..hi], b) && Occurs(t, b, hi + 1)
    ensures IsFirst(t, b, lo, hi + 1)
  {
    if i: nat :| lo <= i < hi + 1 && Occurs(t, b, i) {
      OccursInPart(t, b, i, lo + 1, hi);
      assert false;
    }
  }

  // --- a regenerated summary ---------------------------------------------------------------------

  /** `t` reads: machine block, blank line, start marker, human block, end marker, a line each. */
  ghost predicate Laid(t: string, auto: string, h: string, m: Markers) {
    var n := |auto|;
    var b := n + 2 + |m.start|;
    var e := b + |h| + 2;
    && e + |m.end| <= |t| && t[..n] == auto && t[n] == '\n' && t[n + 1] == '\n' && Occurs(t, m.start, n + 2)
    && t[b] == '\n' && t[b + 1..e - 1] == h && t[e - 1] == '\n' && Occurs(t, m.end, e)
  }

  lemma RenderedIsLaid(auto: string, h: string, m: Markers)
    ensures Laid(Rendered(auto, h, m), auto, h, m)
  {
    var head := auto + "\n\n" + m.start;
    var tail := "\n" + m.end + "\n";
    var t := Rendered(auto, h, m);
    assert t == (head + "\n") + h + tail;
    assert t == (auto + "\n\n") + m.start + ("\n" + h + tail);
    assert t == (head + "\n" + h + "\n") + m.end + "\n";
  }

  /** A clean human block is read back from a summary whose machine block has no start marker. */
  lemma LaidExtracts(t: string, auto: string, h: string, m: Markers)
    requires Sound(m) && Laid(t, auto, h, m) && !Contains(auto, m.start) && !Contains(h, m.end)
    requires h != "" && !IsSpace(h[0]) && !IsSpace(h[|h| - 1])
    ensures Extract(t, m) == Some(h)
  {
    LaidFirsts(t, auto, h, m);
    var b := |auto| + 2 + |m.start|;
    StripBetweenBreaks(t, b, h);
    ExtractIs(t, m, |auto| + 2, b + |h| + 2, h);
  }

  lemma ExtractIs(md: string, m: Markers, i: nat, e: nat, h: string)
    requires IsFirst(md, m.start, 0, i) && IsFirst(md, m.end, i + |m.start|, e) && Strip(md[i + |m.start|..e]) == h
    ensures Extract(md, m) == Some(h)
  {
  }

  lemma LaidFirsts(t: string, auto: string, h: string, m: Markers)
    requires Sound(m) && Laid(t, auto, h, m) && !Contains(auto, m.start) && !Contains(h, m.end)
    ensures IsFirst(t, m.start, 0, |auto| + 2)
    ensures IsFirst(t, m.end, |auto| + 2 + |m.start|, |auto| + 2 + |m.start| + |h| + 2)
  {
    var b := |auto| + 2 + |m.start|;
    FirstAfterBreak(t, m.start, |auto|);
    FirstAfterLine(t, m.end, b, b + 1 + |h|);
  }

  lemma StripBetweenBreaks(t: string, b: nat, h: string)
    requires b + |h| + 2 <= |t| && t[b] == '\n' && t[b + 1..b + 1 + |h|] == h && t[b + 1 + |h|] == '\n'
    requires h != "" && !IsSpace(h[0]) && !IsSpace(h[|h| - 1])
    ensures Strip(t[b..b + |h| + 2]) == h
  {
    BetweenBreaks(t, b, h);
    StripsToItself(h);
  }

  lemma BetweenBreaks(t: string, b: nat, h: string)
    requires b + |h| + 2 <= |t| && t[b] == '\n' && t[b + 1..b + 1 + |h|] == h && t[b + 1 + |h|] == '\n'
    ensures t[b..b + |h| + 2] == "\n" + h + "\n"
  {
    forall i | b + 1 <= i < b + 1 + |h|
      ensures t[i] == h[i - b - 1]
    {
      assert t[b + 1..b + 1 + |h|][i - b - 1] == t[i];
    }
  }

  /** What was extracted has clean ends and no end marker inside. */
  lemma ExtractedIsClean(md: string, h: string, m: Markers)
    requires m.end != "" && Extract(md, m) == Some(h) && h != ""
    ensures !IsSpace(h[0]) && !IsSpace(h[|h| - 1]) && !Contains(h, m.end)
  {
    var i, e := ExtractParts(md, m);
    StripOfSpan(md, i + |m.start|, e, m.end);
  }

  lemma StripOfSpan(s: string, b: nat, e: nat, x: string)
    requires x != "" && b <= e <= |s| && Strip(s[b..e]) != "" && forall q: nat :: b <= q < e ==> !Occurs(s, x, q)
    ensures var h := Strip(s[b..e]); !IsSpace(h[0]) && !IsSpace(h[|h| - 1]) && !Contains(h, x)
  {
    var h := Strip(s[b..e]);
    var lo := StripIsSlice(s[b..e]);
    SliceOfSlice(s, b, e, lo, lo + |h|);
    if q: nat :| Occurs(h, x, q) {
      OccursOutside(s, x, q, b + lo, b + lo + |h|);
      assert false;
    }
  }

  lemma StripIsSlice(s: string) returns (lo: nat)
    ensures lo + |Strip(s)| <= |s| && Strip(s) == s[lo..lo + |Strip(s)|]
    ensures Strip(s) != "" ==> lo < |s| && !IsSpace(Strip(s)[0]) && !IsSpace(Strip(s)[|Strip(s)| - 1])
  {
    var y := TrimLeft(s);
    var h := TrimRight(y);
    TrimLeftIsSuffix(s);
    TrimRightIsPrefix(y);
    lo := |s| - |y|;
    assert h == y[..|h|] && y == s[lo..];
    assert s[lo..][..|h|] == s[lo..lo + |h|];
    if h != "" { assert h[0] == y[0]; }
  }

  /** One regeneration keeps the block, when the machine block has no start marker in it. */
  lemma RegenerationKeeps(auto: string, md: string, h: string, m: Markers)
    requires Sound(m) && !Contains(auto, m.start) && Extract(md, m) == Some(h) && h != ""
    ensures WithHuman(auto, Some(md), m) == Rendered(auto, h, m)
    ensures Extract(WithHuman(auto, Some(md), m), m) == Some(h)
  {
    hide Extract, Rendered, Laid;
    ExtractedIsClean(md, h, m);
    RenderedIsLaid(auto, h, m);
    NeverEmpty(md, m);
    LaidExtracts(Rendered(auto, h, m), auto, h, m);
  }

  lemma NeverEmpty(md: string, m: Markers)
    requires Sound(m) && Extract(md, m).Some?
    ensures md != ""
  {
  }

  /** The summary after regenerating once for each machine block, in order. */
  function Regenerations(autos: seq<string>, md: string, m: Markers): string {
    if autos == [] then md
    else WithHuman(autos[|autos| - 1], Some(Regenerations(autos[..|autos| - 1], md, m)), m)
  }

  /** Any number of regenerations keep the block. */
  lemma {:induction false} RegenerationsKeep(autos: seq<string>, md: string, h: string, m: Markers)
    requires Sound(m) && forall a :: a in autos ==> !Contains(a, m.start)
    requires Extract(md, m) == Some(h) && h != ""
    ensures Extract(Regenerations(autos, md, m), m) == Some(h)
    decreases autos
  {
    if autos != [] {
      RegenerationsKeep(autos[..|autos| - 1], md, h, m);
      RegenerationKeeps(autos[|autos| - 1], Regenerations(autos[..|autos| - 1], md, m), h, m);
    }
  }

  // --- and only then -----------------------------------------------------------------------------

  /** Every human block survives a regeneration with this machine block. */
  ghost predicate Preserves(auto: string, m: Markers) {
    forall md, h :: Extract(md, m) == Some(h) && h != "" ==> Extract(WithHuman(auto, Some(md), m), m) == Some(h)
  }

  lemma SameFirst(s: string, t: string, b: string, i: nat, p: nat)
    requires s <= t && IsFirst(s, b, i, p)
    ensures IsFirst(t, b, i, p)
  {
    PrefixSlice(s, t, p, p + |b|);
    forall q: nat | i <= q < p
      ensures !Occurs(t, b, q)
    {
      PrefixSlice(s, t, q, q + |b|);
      assert !Occurs(s, b, q);
    }
  }

  lemma PrefixSlice(s: string, t: string, b: nat, e: nat)
    requires s <= t && b <= e <= |s|
    ensures s[b..e] == t[b..e]
  {
    assert t[..|s|] == s;
    forall k | 0 <= k < e - b
      ensures s[b..e][k] == t[b..e][k]
    {
    }
  }

  /** An end marker inside the machine block: the extraction never gets past that block. */
  lemma TrappedInAuto(t: string, auto: string, m: Markers)
    requires auto <= t && Extract(auto, m).Some?
    ensures Extract(t, m) == Extract(auto, m)
  {
    var i, e := ExtractParts(auto, m);
    SameFirst(auto, t, m.start, 0, i);
    SameFirst(auto, t, m.end, i + |m.start|, e);
    PrefixSlice(auto, t, i + |m.start|, e);
    ExtractIs(t, m, i, e, Strip(auto[i + |m.start|..e]));
  }

  /** No end marker from `b` on in the machine block: the next one is after the own start marker. */
  lemma EndIsBeyondStart(t: string, auto: string, h: string, m: Markers, b: nat, e: nat)
    requires Sound(m) && Laid(t, auto, h, m) && HasNone(auto, m.end, b) && b <= e && Occurs(t, m.end, e)
    ensures e > |auto| + 2
  {
    var n := |auto|;
    if e < n {
      OccursInPrefix(t, m.end, e, n);
      assert false;
    }
  }

  lemma StripKeepsAngle(t: string, b: nat, e: nat, k: nat)
    requires b <= k < e <= |t| && t[k] == '<'
    ensures '<' in Strip(t[b..e])
  {
    assert t[b..e][k - b] == t[k];
    StripKeeps(t[b..e], k - b);
  }

  /** No end marker there: the extraction swallows the summary's own start marker. */
  lemma SwallowsMarker(t: string, auto: string, h: string, m: Markers, i: nat, e: nat)
    requires Sound(m) && Laid(t, auto, h, m) && Contains(auto, m.start) && Span(auto, m).None?
    requires IsFirst(t, m.start, 0, i) && IsFirst(t, m.end, i + |m.start|, e)
    ensures i + |m.start| <= e <= |t| && '<' in Strip(t[i + |m.start|..e])
  {
    BeyondStart(t, auto, h, m, i, e);
    StripKeepsAngle(t, i + |m.start|, e, |auto| + 2);
  }

  lemma BeyondStart(t: string, auto: string, h: string, m: Markers, i: nat, e: nat)
    requires Sound(m) && Laid(t, auto, h, m) && Contains(auto, m.start) && Span(auto, m).None?
    requires IsFirst(t, m.start, 0, i) && IsFirst(t, m.end, i + |m.start|, e)
    ensures i + |m.start| <= |auto| + 2 < e <= |t| && t[|auto| + 2] == '<'
  {
    var j := SpanBroken(auto, m);
    SameFirst(auto, t, m.start, 0, j);
    assert i == j;
    EndIsBeyondStart(t, auto, h, m, i + |m.start|, e);
  }

  lemma ExtractParts(md: string, m: Markers) returns (i: nat, e: nat)
    requires Extract(md, m).Some?
    ensures IsFirst(md, m.start, 0, i) && IsFirst(md, m.end, i + |m.start|, e) && i + |m.start| <= e
    ensures Extract(md, m) == Some(Strip(md[i + |m.start|..e]))
  {
    i, e := SpanParts(md, m);
  }

  /** Behind a machine block with a start marker, one of two one-letter blocks gets lost. */
  lemma LostLetters(ta: string, tb: string, auto: string, m: Markers)
    requires Sound(m) && Contains(auto, m.start) && Laid(ta, auto, "a", m) && Laid(tb, auto, "b", m)
    ensures Extract(ta, m) != Some("a") || Extract(tb, m) != Some("b")
  {
    if Extract(auto, m).Some? {
      TrappedInAuto(ta, auto, m);
      TrappedInAuto(tb, auto, m);
      assert "a"[0] != "b"[0];
    } else {
      if Extract(ta, m).Some? {
        var i, e := ExtractParts(ta, m);
        SwallowsMarker(ta, auto, "a", m, i, e);
      }
      assert '<' !in "a";
    }
  }

  lemma LetterExtracts(c: char, m: Markers)
    requires Sound(m) && !IsSpace(c) && c != '<'
    ensures Extract(Rendered("", [c], m), m) == Some([c])
  {
    RenderedIsLaid("", [c], m);
    LaidExtracts(Rendered("", [c], m), "", [c], m);
  }

  lemma LetterRegenerates(auto: string, c: char, m: Markers) returns (t: string)
    requires Sound(m) && Preserves(auto, m) && !IsSpace(c) && c != '<'
    ensures Laid(t, auto, [c], m) && Extract(t, m) == Some([c])
  {
    var md := Rendered("", [c], m);
    LetterExtracts(c, m);
    NeverEmpty(md, m);
    t := Rendered(auto, [c], m);
    assert WithHuman(auto, Some(md), m) == t;
    RenderedIsLaid(auto, [c], m);
  }

  /**
    The promise of the human block, exactly: a regeneration preserves every human block iff the
    machine block it writes does not contain the start marker.
   */
  lemma PreservesIff(auto: string, m: Markers)
    requires Sound(m)
    ensures Preserves(auto, m) <==> !Contains(auto, m.start)
  {
    if !Contains(auto, m.start) {
      forall md, h | Extract(md, m) == Some(h) && h != ""
        ensures Extract(WithHuman(auto, Some(md), m), m) == Some(h)
      {
        RegenerationKeeps(auto, md, h, m);
      }
    } else if Preserves(auto, m) {
      var ta := LetterRegenerates(auto, 'a', m);
      var tb := LetterRegenerates(auto, 'b', m);
      LostLetters(ta, tb, auto, m);
      assert false;
    }
  }
}
