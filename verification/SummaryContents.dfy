/** rca_agent/summarize.py: what the machine block says of a graph. */
module SummaryContents {
  import opened Basics
  import opened Grouping
  import opened Sorting
  import opened PyText
  import opened CodeGraph
  import opened MarkedText
  import opened Summary

  // --- entry points --------------------------------------------------------------------------------

  lemma EntriesAre(ns: seq<Node>, edges: seq<Edge>, n: Node)
    ensures n in Entries(ns, Called(edges)) <==>
      n in ns && n.kind != Class && forall e :: e in edges ==> e.dst != n.id
  {
    WhereFinds(ns, m => IsEntry(m, Called(edges)), n);
    assert n.id in Called(edges) <==> exists e :: e in edges && e.dst == n.id;
  }

  /** An entry point is a function or a method that no edge leads into, and each is listed. */
  lemma EntryPointsAre(ns: seq<Node>, edges: seq<Edge>, line: string)
    ensures line in EntryLines(ns, edges) <==>
      exists n :: n in ns && n.kind != Class && (forall e :: e in edges ==> e.dst != n.id)
                  && line == "- `" + n.qualname + "`"
  {
    var es := Entries(ns, Called(edges));
    var quals := QualNames(es);
    var names := StableSort(quals, TextBefore);
    SortedMembers(quals, TextBefore);
    if line in EntryLines(ns, edges) {
      var i :| 0 <= i < |names| && Bulleted(names)[i] == line;
      assert names[i] in names && names[i] in quals;
      var j :| 0 <= j < |quals| && quals[j] == names[i];
      assert es[j] in es;
      EntriesAre(ns, edges, es[j]);
    }
    if n :| n in ns && n.kind != Class && (forall e :: e in edges ==> e.dst != n.id) && line == "- `" + n.qualname + "`" {
      EntriesAre(ns, edges, n);
      var j :| 0 <= j < |es| && es[j] == n;
      assert quals[j] == n.qualname && quals[j] in quals && quals[j] in names;
      var i :| 0 <= i < |names| && names[i] == n.qualname;
      assert Bulleted(names)[i] == line;
    }
  }

  // --- areas ---------------------------------------------------------------------------------------

  /** The symbols of one file, by line. */
  lemma SymbolsTopDown(ns: seq<Node>, f: string)
    ensures var syms := StableSort(Group(ns, FileOf, f), LineBefore);
      && (forall i, j :: 0 <= i < j < |syms| ==> syms[i].line <= syms[j].line)
      && (forall n :: n in syms <==> n in ns && n.file == f)
      && multiset(syms) == multiset(Group(ns, FileOf, f))
  {
    var g := Group(ns, FileOf, f);
    SortOrders(g, LineBefore, n => false);
    SortedMembers(g, LineBefore);
    SortKeepsAll(g, LineBefore);
    forall n
      ensures n in g <==> n in ns && n.file == f
    {
      GroupMembers(ns, FileOf, f, n);
    }
  }

  lemma {:induction false} LinesForHave(files: seq<string>, ns: seq<Node>, line: string)
    ensures line in LinesFor(files, ns) <==> exists f :: f in files && line == AreaLine(f, Group(ns, FileOf, f))
    decreases files
  {
    if files != [] {
      var init, last := files[..|files| - 1], files[|files| - 1];
      InitAndLast(files);
      LinesForHave(init, ns, line);
      assert line in LinesFor(files, ns) <==> line in LinesFor(init, ns) || line == AreaLine(last, Group(ns, FileOf, last));
      if f :| f in init && line == AreaLine(f, Group(ns, FileOf, f)) { assert f in files; }
    }
  }

  /** One line for each file of the graph: its name, then its symbols' names. */
  lemma AreasAre(ns: seq<Node>, line: string)
    ensures line in AreaLines(ns) <==>
      exists n :: n in ns
        && line == "- `" + n.file + "` \U{2014} "
             + Join(Quoted(QualNames(StableSort(Group(ns, FileOf, n.file), LineBefore))), ", ")
  {
    LinesForHave(Files(ns), ns, line);
    if f :| f in Files(ns) && line == AreaLine(f, Group(ns, FileOf, f)) {
      OneAreaPerFile(ns, f);
      var n :| n in ns && n.file == f;
    }
    if n :| n in ns && line == AreaLine(n.file, Group(ns, FileOf, n.file)) {
      OneAreaPerFile(ns, n.file);
    }
  }

  // --- keywords ------------------------------------------------------------------------------------

  /** `s` is the parts with one separator between each two. */
  ghost predicate Interleaves(s: string, parts: seq<string>, seps: set<char>)
    decreases parts
  {
    parts != []
    && if |parts| == 1 then s == parts[0]
       else |parts[0]| < |s| && s[..|parts[0]|] == parts[0] && s[|parts[0]|] in seps
            && Interleaves(s[|parts[0]| + 1..], parts[1..], seps)
  }

  lemma GrownPart(s: string, rest: seq<string>, seps: set<char>)
    requires s != "" && rest != [] && Interleaves(s[1..], rest, seps)
    ensures Interleaves(s, [[s[0]] + rest[0]] + rest[1..], seps)
  {
    var parts := [[s[0]] + rest[0]] + rest[1..];
    assert s == [s[0]] + s[1..] && parts[1..] == rest[1..];
    if |rest| > 1 {
      assert s[..|parts[0]|] == [s[0]] + s[1..][..|rest[0]|];
      assert s[|parts[0]| + 1..] == s[1..][|rest[0]| + 1..];
    }
  }

  /** A split cuts at every separator and nowhere else. */
  lemma {:induction false} SplitCuts(s: string, seps: set<char>)
    ensures Interleaves(s, SplitOn(s, seps), seps)
    ensures forall p, c :: p in SplitOn(s, seps) && c in p ==> c !in seps
    decreases s
  {
    if s != "" {
      var rest := SplitOn(s[1..], seps);
      SplitCuts(s[1..], seps);
      if s[0] in seps {
        assert ([""] + rest)[1..] == rest && s[1..] == s[|""| + 1..];
      } else {
        GrownPart(s, rest, seps);
        assert rest[0] in rest;
      }
    }
  }

  /** What a part of a path is without a trailing "py". */
  lemma WithoutPyIs(s: string)
    ensures var stem := WithoutPy(s);
      s == stem + "py" || (s == stem && !exists t: string :: s == t + "py")
  {
    if |s| >= 2 && s[|s| - 2..] == "py" {
      assert s == WithoutPy(s) + "py";
    } else {
      forall t: string
        ensures s != t + "py"
      {
        assert (t + "py")[|t|..] == "py" && |t + "py"| == |t| + 2;
      }
    }
  }

  /** Longer than two letters, and none of the six words that say nothing. */
  predicate Telling(w: string) {
    |w| >= 3 && w != "self" && w != "cls" && w != "the" && w != "and" && w != "for" && w != "init"
  }

  lemma {:induction false} WordsOfAre(parts: seq<string>, isFile: bool, w: string)
    ensures w in WordsOf(parts, isFile) <==>
      Telling(w) && exists p :: p in parts && w == Lower(if isFile then WithoutPy(p) else p)
    decreases parts
  {
    hide Lower, WithoutPy;
    if parts != [] {
      var init, last := parts[..|parts| - 1], parts[|parts| - 1];
      InitAndLast(parts);
      WordsOfAre(init, isFile, w);
      assert w in WordsOf(parts, isFile) <==>
        w in WordsOf(init, isFile) || (Telling(w) && w == Lower(if isFile then WithoutPy(last) else last));
      if p :| p in init && w == Lower(if isFile then WithoutPy(p) else p) { assert p in parts; }
    }
  }

  lemma {:induction false} AllWordsAre(ns: seq<Node>, w: string)
    ensures w in AllWords(ns) <==> exists n :: n in ns && w in NodeWords(n)
    decreases ns
  {
    if ns != [] {
      InitAndLast(ns);
      AllWordsAre(ns[..|ns| - 1], w);
    }
  }

  /** A part of a symbol's name, or of its path without a trailing "py", in lower case. */
  ghost predicate PartOf(n: Node, w: string) {
    || (exists p :: p in SplitOn(n.name, {'_', '.'}) && w == Lower(p))
    || (exists p :: p in SplitOn(n.file, {'/', '.'}) && w == Lower(WithoutPy(p)))
  }

  lemma NodeWordsAre(n: Node, w: string)
    ensures w in NodeWords(n) <==> Telling(w) && PartOf(n, w)
  {
    hide SplitOn, Lower, WithoutPy, WordsOf;
    WordsOfAre(SplitOn(n.name, {'_', '.'}), false, w);
    WordsOfAre(SplitOn(n.file, {'/', '.'}), true, w);
  }

  /** The keywords: each telling part of a name or of a path, once, in text order. */
  lemma KeywordsAre(ns: seq<Node>, w: string)
    ensures NoDuplicates(Keywords(ns)) && Ordered(Keywords(ns), TextBefore)
    ensures w in Keywords(ns) <==> Telling(w) && exists n :: n in ns && PartOf(n, w)
  {
    hide PartOf, NodeWords, Telling, StableSort, Firsts;
    var words := Firsts(AllWords(ns));
    TextIsOrder();
    SortOrders(words, TextBefore, x => x == w);
    SortedIsDistinct(words, TextBefore);
    SortedMembers(words, TextBefore);
    AllWordsAre(ns, w);
    forall n | n in ns
      ensures w in NodeWords(n) <==> Telling(w) && PartOf(n, w)
    {
      NodeWordsAre(n, w);
    }
  }

  // --- the block -----------------------------------------------------------------------------------

  /** The lines the block opens with; a missing sha or date reads "unknown". */
  lemma BlockOpens(s: Subject)
    requires s.nodes.Valid()
    ensures var lines := Body(s);
      && |lines| > 9 && lines[0] == "project: " + s.project
      && lines[1] == "sha: " + (if s.sha == "" then "unknown" else s.sha)
      && lines[2] == "generated_at: " + (if s.generatedAt == "" then "unknown" else s.generatedAt)
      && lines[4] == "# " + LastPart(s.project) && lines[8] == "## Areas"
  {
    hide AreaLines, EntryLines, Keywords, LastPart;
    HeadFirst(HeadLines(s), AreaLines(Values(s.nodes)), EntryLines(Values(s.nodes), s.edges),
              Join(Keywords(Values(s.nodes)), " "));
  }

  lemma HeadFirst(head: seq<string>, areas: seq<string>, entries: seq<string>, words: string)
    ensures |Sections(head, areas, entries, words)| > |head|
    ensures forall k :: 0 <= k < |head| ==> Sections(head, areas, entries, words)[k] == head[k]
  {
  }

  /** `split("/")[-1]`: what follows the last slash, or all of it. */
  lemma {:induction false} LastPartIs(s: string)
    ensures '/' !in LastPart(s)
    ensures s == LastPart(s) || exists above: string :: s == above + "/" + LastPart(s)
    decreases s
  {
    if s != "" {
      LastPartIs(s[1..]);
      LastPartStep(s);
      var rest := SplitOn(s[1..], {'/'});
      if s[0] == '/' {
        assert LastPart(s) == LastPart(s[1..]);
        if s[1..] == LastPart(s) {
          assert s == "" + "/" + LastPart(s);
        } else {
          var above: string :| s[1..] == above + "/" + LastPart(s);
          assert s == (['/'] + above) + "/" + LastPart(s);
        }
      } else if |rest| > 1 {
        assert LastPart(s) == LastPart(s[1..]);
        assert s[1..] != LastPart(s) by { SplitHasSeparator(s[1..]); }
        var above: string :| s[1..] == above + "/" + LastPart(s);
        assert s == ([s[0]] + above) + "/" + LastPart(s);
      } else {
        SplitOne(s[1..]);
        assert LastPart(s) == s;
      }
    }
  }

  lemma {:induction false} SplitHasSeparator(s: string)
    requires |SplitOn(s, {'/'})| > 1
    ensures '/' in s
    decreases s
  {
    if s[0] != '/' { SplitHasSeparator(s[1..]); }
  }

  /** A summary with a human block ends with it, between its two markers. */
  lemma HumanBlockComesLast(auto: string, md: string, h: string)
    requires md != "" && Extract(md, HUMAN) == Some(h) && h != ""
    ensures WithHuman(auto, Some(md), HUMAN)
         == auto + "\n\n" + ("<!-- HUMAN BLOCK " + "(agent never touches) -->") + "\n" + h + "\n"
            + ("<!-- END HUMAN" + " BLOCK -->") + "\n"
  {
    hide Extract;
  }

  /** The block itself stands between two lines that say whose it is. */
  lemma BlockIsMarked(s: Subject)
    requires s.nodes.Valid()
    ensures AutoBlock(s) == ("<!-- AUTO-GENERATED BLOCK " + "(indexer owns this; do not hand-edit) -->") + "\n"
                            + Join(Body(s), "\n") + "\n" + ("<!-- END AUTO-GENERATED" + " BLOCK -->")
  {
    hide Body;
    assert ([AUTO_START] + Body(s) + [AUTO_END])[1..] == Body(s) + [AUTO_END];
    BlockOpens(s);
    JoinLast(Body(s), AUTO_END, "\n");
  }

  lemma {:induction false} JoinLast(lines: seq<string>, last: string, sep: string)
    requires lines != []
    ensures Join(lines + [last], sep) == Join(lines, sep) + sep + last
    decreases lines
  {
    assert (lines + [last])[1..] == lines[1..] + [last];
    if |lines| > 1 { JoinLast(lines[1..], last, sep); }
  }

  /** Every area and every entry point has its line, and the keywords have theirs. */
  lemma BlockShows(s: Subject, line: string)
    requires s.nodes.Valid()
    ensures var ns := Values(s.nodes);
      line in AreaLines(ns) || line in EntryLines(ns, s.edges) || (line != "" && line == Join(Keywords(ns), " "))
      ==> line in Body(s)
    ensures Values(s.nodes) == [] ==> "- (no Python symbols found)" in Body(s)
  {
    var ns := Values(s.nodes);
    if ns == [] {
      assert Files(ns) == [];
      assert AreaLines(ns) == [];
    }
  }

  /** Text order: at the first difference the smaller character decides, and an end comes before everything. */
  lemma {:induction false} TextOrderIs(a: string, b: string)
    ensures TextBefore(a, b) <==>
      exists k :: 0 <= k <= |a| && k < |b| && a[..k] == b[..k] && (k == |a| || a[k] < b[k])
    decreases a
  {
    if a != "" && b != "" && a[0] == b[0] {
      TextOrderIs(a[1..], b[1..]);
      if TextBefore(a[1..], b[1..]) {
        var k :| 0 <= k <= |a| - 1 && k < |b| - 1 && a[1..][..k] == b[1..][..k] && (k == |a| - 1 || a[1..][k] < b[1..][k]);
        assert a[..k + 1] == [a[0]] + a[1..][..k] && b[..k + 1] == [b[0]] + b[1..][..k];
      }
      if k :| 0 <= k <= |a| && k < |b| && a[..k] == b[..k] && (k == |a| || a[k] < b[k]) {
        assert a[1..][..k - 1] == a[..k][1..] && b[1..][..k - 1] == b[..k][1..];
      }
    } else {
      assert a[..0] == b[..0];
      forall k | 0 < k <= |a| && k < |b| && a[..k] == b[..k] {
        SharedHead(a, b, k);
      }
    }
  }

  lemma SharedHead(a: string, b: string, k: nat)
    requires 0 < k <= |a| && k <= |b| && a[..k] == b[..k]
    ensures a[0] == b[0]
  {
    assert a[0] == a[..k][0] && b[0] == b[..k][0];
  }
}
