/** The Python string operations the service leans on. */
module PyText {
  import opened Basics

  // --- search ------------------------------------------------------------------------------

  predicate Occurs(s: string, b: string, p: nat) {
    p + |b| <= |s| && s[p..p + |b|] == b
  }

  /** The first occurrence at or after `i`. */
  function FindFrom(s: string, b: string, i: nat): (r: Option<nat>)
    ensures r.Some? ==> i <= r.value && Occurs(s, b, r.value)
    ensures r.Some? ==> forall q: nat :: i <= q < r.value ==> !Occurs(s, b, q)
    ensures r.None? ==> forall q: nat :: i <= q ==> !Occurs(s, b, q)
    decreases |s| - i
  {
    if i + |b| > |s| then None
    else if s[i..i + |b|] == b then Some(i)
    else FindFrom(s, b, i + 1)
  }

  // --- strip and lower -----------------------------------------------------------------------

  /** The characters `str.strip()` removes. */
  predicate IsSpace(c: char) {
    c == ' ' || '\t' <= c <= '\r' || '\U{1C}' <= c <= '\U{1F}' || c == '\U{85}' || c == '\U{A0}'
    || c == '\U{1680}' || '\U{2000}' <= c <= '\U{200A}' || c == '\U{2028}' || c == '\U{2029}'
    || c == '\U{202F}' || c == '\U{205F}' || c == '\U{3000}'
  }

  function TrimLeft(s: string): string {
    if s != "" && IsSpace(s[0]) then TrimLeft(s[1..]) else s
  }

  function TrimRight(s: string): string {
    if s != "" && IsSpace(s[|s| - 1]) then TrimRight(s[..|s| - 1]) else s
  }

  lemma {:induction false} TrimLeftIsSuffix(s: string)
    ensures TrimLeft(s) == "" || !IsSpace(TrimLeft(s)[0])
    ensures |TrimLeft(s)| <= |s| && TrimLeft(s) == s[|s| - |TrimLeft(s)|..]
    decreases s
  {
    if s != "" && IsSpace(s[0]) { TrimLeftIsSuffix(s[1..]); }
  }

  lemma {:induction false} TrimRightIsPrefix(s: string)
    ensures TrimRight(s) == "" || !IsSpace(TrimRight(s)[|TrimRight(s)| - 1])
    ensures |TrimRight(s)| <= |s| && TrimRight(s) == s[..|TrimRight(s)|]
    decreases s
  {
    if s != "" && IsSpace(s[|s| - 1]) { TrimRightIsPrefix(s[..|s| - 1]); }
  }

  function Strip(s: string): string {
    TrimRight(TrimLeft(s))
  }

  function LowerChar(c: char): char {
    if 'A' <= c <= 'Z' then c - 'A' + 'a' else c
  }

  function Lower(s: string): string {
    seq(|s|, i requires 0 <= i < |s| => LowerChar(s[i]))
  }

  /** Only the 26 capital letters change, each to its small one. */
  lemma LowerIs(s: string, i: nat)
    requires i < |s|
    ensures |Lower(s)| == |s|
    ensures Lower(s)[i] as int == s[i] as int + if 65 <= s[i] as int <= 90 then 32 else 0
  {
  }

  /** Stripping loses nothing but space. */
  lemma StripKeeps(s: string, k: nat)
    requires k < |s| && !IsSpace(s[k])
    ensures s[k] in Strip(s)
  {
    TrimLeftKeeps(s, k);
    var t := TrimLeft(s);
    var j :| 0 <= j < |t| && t[j] == s[k];
    TrimRightKeeps(t, j);
  }

  lemma {:induction false} TrimLeftKeeps(s: string, k: nat)
    requires k < |s| && !IsSpace(s[k])
    ensures s[k] in TrimLeft(s)
    decreases s
  {
    if IsSpace(s[0]) {
      TrimLeftKeeps(s[1..], k - 1);
    }
  }

  lemma {:induction false} TrimRightKeeps(s: string, k: nat)
    requires k < |s| && !IsSpace(s[k])
    ensures s[k] in TrimRight(s)
    decreases s
  {
    if IsSpace(s[|s| - 1]) {
      TrimRightKeeps(s[..|s| - 1], k);
    }
  }

  /** A text with no space at its ends comes back from between two line breaks. */
  lemma StripsToItself(h: string)
    requires h != "" && !IsSpace(h[0]) && !IsSpace(h[|h| - 1])
    ensures Strip("\n" + h + "\n") == h && Strip(h) == h
  {
    var t := "\n" + h + "\n";
    var u := h + "\n";
    assert t[1..] == u && u[0] == h[0] && TrimLeft(u) == u;
    assert TrimLeft(t) == u;
    assert u[..|u| - 1] == h && u[|u| - 1] == '\n' && TrimRight(h) == h;
  }

  // --- split and join ------------------------------------------------------------------------

  /** `sep.join(parts)` */
  function Join(parts: seq<string>, sep: string): string {
    if parts == [] then "" else if |parts| == 1 then parts[0] else parts[0] + sep + Join(parts[1..], sep)
  }

  /** `re.split("[...]", s)` for a set of separator characters. */
  function SplitOn(s: string, seps: set<char>): (r: seq<string>)
    ensures |r| > 0
  {
    if s == "" then [""]
    else
      var rest := SplitOn(s[1..], seps);
      if s[0] in seps then [""] + rest else [[s[0]] + rest[0]] + rest[1..]
  }
}
