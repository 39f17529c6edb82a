/**
  rca_agent/summarize.py, `generate_summary`: the machine block rendered from a code graph, and
  exactly when re-indexing keeps the human block behind it.
 */
module Summary {
  import opened Basics
  import opened Grouping
  import opened Sorting
  import opened PyText
  import opened CodeGraph
  import opened MarkedText

  const AUTO_START := "<!-- AUTO-GENERATED BLOCK " + "(indexer owns this; do not hand-edit) -->"
  const AUTO_END := "<!-- END AUTO-GENERATED" + " BLOCK -->"
  const HUMAN_START := "<!-- HUMAN BLOCK " + "(agent never touches) -->"
  const HUMAN_END := "<!-- END HUMAN" + " BLOCK -->"
  const HUMAN := Markers(HUMAN_START, HUMAN_END)
  const STOP: set<string> := {"self", "cls", "the", "and", "for", "init"}

  /** What one run renders; an empty string stands for a missing sha or date. */
  datatype Subject = Subject(project: string, sha: string, generatedAt: string, nodes: Nodes, edges: seq<Edge>)

  function Or(s: string, fallback: string): string {
    if s == "" then fallback else s
  }

  function Values(nodes: Nodes): seq<Node>
    requires nodes.Valid()
  {
    seq(|nodes.keys|, i requires 0 <= i < |nodes.keys| => nodes.vals[nodes.keys[i]])
  }

  // --- areas ---------------------------------------------------------------------------------------

  function FileOf(n: Node): string {
    n.file
  }

  predicate LineBefore(a: Node, b: Node) {
    a.line < b.line
  }

  function Quoted(names: seq<string>): seq<string> {
    seq(|names|, i requires 0 <= i < |names| => "`" + names[i] + "`")
  }

  function QualNames(ns: seq<Node>): seq<string> {
    seq(|ns|, i requires 0 <= i < |ns| => ns[i].qualname)
  }

  /** One file and its symbols from top to bottom. */
  function AreaLine(file: string, syms: seq<Node>): string {
    "- `" + file + "` \U{2014} " + Join(Quoted(QualNames(StableSort(syms, LineBefore))), ", ")
  }

  function Files(ns: seq<Node>): seq<string> {
    StableSort(Firsts(Keys(ns, FileOf)), TextBefore)
  }

  function LinesFor(files: seq<string>, ns: seq<Node>): seq<string> {
    if files == [] then []
    else
      var f := files[|files| - 1];
      LinesFor(files[..|files| - 1], ns) + [AreaLine(f, Group(ns, FileOf, f))]
  }

  lemma LinesStep(files: seq<string>, i: nat, ns: seq<Node>)
    requires i < |files|
    ensures LinesFor(files[..i + 1], ns) == LinesFor(files[..i], ns) + [AreaLine(files[i], Group(ns, FileOf, files[i]))]
  {
    assert files[..i + 1][..i] == files[..i];
  }

  function AreaLines(ns: seq<Node>): seq<string> {
    LinesFor(Files(ns), ns)
  }

  method RenderAreas(ns: seq<Node>) returns (lines: seq<string>)
    ensures lines == AreaLines(ns)
  {
    var byFile := GroupBy(ns, FileOf);
    var fs := StableSort(byFile.keys, TextBefore);
    SortedMembers(byFile.keys, TextBefore);
    lines := [];
    for i := 0 to |fs|
      invariant lines == LinesFor(fs[..i], ns)
    {
      assert fs[i] in byFile.keys;
      LinesStep(fs, i, ns);
      lines := lines + [AreaLine(fs[i], byFile.vals[fs[i]])];
    }
    assert fs[..|fs|] == fs;
  }

  /** One line per file, in alphabetical order. */
  lemma OneAreaPerFile(ns: seq<Node>, f: string)
    ensures NoDuplicates(Files(ns)) && Ordered(Files(ns), TextBefore)
    ensures f in Files(ns) <==> exists n :: n in ns && n.file == f
  {
    var fs := Firsts(Keys(ns, FileOf));
    TextIsOrder();
    SortOrders(fs, TextBefore, x => x == f);
    SortedIsDistinct(fs, TextBefore);
    SortedMembers(fs, TextBefore);
    ListedIffBorne(ns, FileOf, f);
    assert forall n: Node :: FileOf(n) == n.file;
  }

  /** And every symbol stands on one of them. */
  lemma {:induction false} AreasCoverTheGraph(ns: seq<Node>)
    ensures TotalOfGroups(ns, FileOf, Files(ns), One, INTS) == |ns|
  {
    OneAreaPerFile(ns, "");
    forall n | n in ns
      ensures FileOf(n) in Files(ns)
    {
      OneAreaPerFile(ns, FileOf(n));
    }
    GroupsCount(ns, FileOf, Files(ns));
  }

  // --- entry points --------------------------------------------------------------------------------

  predicate IsEntry(n: Node, called: set<Id>) {
    (n.kind.Function? || n.kind.Method?) && n.id !in called
  }

  function Called(edges: seq<Edge>): set<Id> {
    set e | e in edges :: e.dst
  }

  function Entries(ns: seq<Node>, called: set<Id>): seq<Node> {
    Where(ns, n => IsEntry(n, called))
  }

  function EntryLines(ns: seq<Node>, edges: seq<Edge>): seq<string> {
    Bulleted(StableSort(QualNames(Entries(ns, Called(edges))), TextBefore))
  }

  function Bulleted(names: seq<string>): seq<string> {
    seq(|names|, i requires 0 <= i < |names| => "- `" + names[i] + "`")
  }

  // --- keywords ------------------------------------------------------------------------------------

  /** `removesuffix("py")`; splitting on '.' has left no dot for `strip(".")` to remove. */
  function WithoutPy(s: string): string {
    if |s| >= 2 && s[|s| - 2..] == "py" then s[..|s| - 2] else s
  }

  predicate Keyword(w: string) {
    |w| > 2 && w !in STOP
  }

  function WordsOf(parts: seq<string>, isFile: bool): seq<string> {
    if parts == [] then []
    else
      var last := parts[|parts| - 1];
      var w := Lower(if isFile then WithoutPy(last) else last);
      WordsOf(parts[..|parts| - 1], isFile) + if Keyword(w) then [w] else []
  }

  function NodeWords(n: Node): seq<string> {
    WordsOf(SplitOn(n.name, {'_', '.'}), false) + WordsOf(SplitOn(n.file, {'/', '.'}), true)
  }

  function AllWords(ns: seq<Node>): seq<string> {
    if ns == [] then [] else AllWords(ns[..|ns| - 1]) + NodeWords(ns[|ns| - 1])
  }

  function Keywords(ns: seq<Node>): seq<string> {
    StableSort(Firsts(AllWords(ns)), TextBefore)
  }

  // --- the block -----------------------------------------------------------------------------------

  function LastPart(s: string): string {
    var parts := SplitOn(s, {'/'});
    parts[|parts| - 1]
  }

  function OrNone(lines: seq<string>, none: string): seq<string> {
    if lines == [] then [none] else lines
  }

  function HeadLines(s: Subject): seq<string> {
    ["project: " + s.project, "sha: " + Or(s.sha, "unknown"), "generated_at: " + Or(s.generatedAt, "unknown"),
     "", "# " + LastPart(s.project), "",
     "Auto-generated structural summary " + "(symbols + areas from the code graph).", "", "## Areas"]
  }

  function Sections(head: seq<string>, areas: seq<string>, entries: seq<string>, words: string): seq<string> {
    head + OrNone(areas, "- (no Python symbols found)") + ["", "## Entry points"] + OrNone(entries, "- (none)")
    + ["", "## Keywords"] + [Or(words, "(none)"), ""]
  }

  /** Everything between the two lines that open and close the block. */
  function Body(s: Subject): seq<string>
    requires s.nodes.Valid()
  {
    var ns := Values(s.nodes);
    Sections(HeadLines(s), AreaLines(ns), EntryLines(ns, s.edges), Join(Keywords(ns), " "))
  }

  function AutoBlock(s: Subject): string
    requires s.nodes.Valid()
  {
    Join([AUTO_START] + Body(s) + [AUTO_END], "\n")
  }

  method GenerateSummary(s: Subject, existing: Option<string>) returns (md: string)
    requires s.nodes.Valid()
    ensures md == WithHuman(AutoBlock(s), existing, HUMAN)
  {
    var ns := Values(s.nodes);
    var areas := RenderAreas(ns);
    var body := Sections(HeadLines(s), areas, EntryLines(ns, s.edges), Join(Keywords(ns), " "));
    var auto := [AUTO_START] + body + [AUTO_END];
    var human := ExtractFrom(existing, HUMAN);
    if human.Some? && human.value != "" {
      md := Rendered(Join(auto, "\n"), human.value, HUMAN);
    } else {
      md := Join(auto, "\n") + "\n";
    }
  }

  // --- where a marker can be in a rendered line ------------------------------------------------------

  /** A character outside the marker splits a text: the marker is on one side or on the other. */
  lemma BreakContains(l: string, c: char, rest: string, b: string)
    requires b != "" && c !in b
    ensures Contains(l + [c] + rest, b) <==> Contains(l, b) || Contains(rest, b)
  {
    var t, n := l + [c] + rest, |l|;
    assert t[..n] == l && t[n] == c && t[n + 1..|t|] == rest && t[0..n] == l;
    if q: nat :| Occurs(t, b, q) {
      if q < n { OccursInPart(t, b, q, 0, n); } else { OccursInPart(t, b, q, n + 1, |t|); }
    }
    if q: nat :| Occurs(l, b, q) { OccursOutside(t, b, q, 0, n); }
    if q: nat :| Occurs(rest, b, q) { OccursOutside(t, b, q, n + 1, |t|); }
  }

  /** A text joined by line breaks holds a one-line marker exactly when one of its lines does. */
  lemma {:induction false} JoinContains(lines: seq<string>, b: string)
    requires b != "" && '\n' !in b
    ensures Contains(Join(lines, "\n"), b) <==> exists l :: l in lines && Contains(l, b)
    decreases lines
  {
    if |lines| > 1 {
      var rest := Join(lines[1..], "\n");
      JoinContains(lines[1..], b);
      assert lines == [lines[0]] + lines[1..];
      BreakContains(lines[0], '\n', rest, b);
      assert Join(lines, "\n") == lines[0] + ['\n'] + rest;
    } else if |lines| == 1 {
      assert lines[0] in lines;
    }
  }

  predicate Plain(s: string) {
    '<' !in s
  }

  /** A marker opens with '<', so none starts in a plain prefix. */
  lemma PlainPrefix(p: string, s: string, b: string)
    requires Plain(p) && b != "" && b[0] == '<'
    ensures Contains(p + s, b) <==> Contains(s, b)
  {
    var t := p + s;
    assert t[|p|..|t|] == s;
    forall q: nat | q < |p|
      ensures t[q] != b[0]
    {
      assert t[q] == p[q];
    }
    if q: nat :| Occurs(t, b, q) {
      OccursInPart(t, b, q, |p|, |t|);
    }
    if q: nat :| Occurs(s, b, q) { OccursOutside(t, b, q, |p|, |t|); }
  }

  /** A line whose only '<' opens another marker. */
  lemma OtherMarkerHasNone(head: string, tail: string, b: string)
    requires |head| > 5 && |b| > 5 && Plain(head[1..]) && Plain(tail) && b[0] == '<' && head[5] != b[5]
    ensures !Contains(head + tail, b)
  {
    var s := head + tail;
    forall q: nat
      ensures !Occurs(s, b, q)
    {
      if q == 0 && |b| <= |s| {
        assert s[q..q + |b|][5] == head[5];
      } else if q + |b| <= |s| {
        assert s[q..q + |b|][0] == s[q];
        assert s[q] == if q < |head| then head[1..][q - 1] else tail[q - |head|];
      }
    }
  }

  lemma WithoutChar(head: string, tail: string, c: char)
    requires c !in head && c !in tail
    ensures c !in head + tail
  {
  }

  /** What the lines below rely on. */
  ghost predicate HumanMark(b: string) {
    |b| > 5 && b[0] == '<' && b[5] == 'H' && '\n' !in b && '`' !in b
  }

  lemma HumanStartIsMark()
    ensures HumanMark(HUMAN_START)
  {
    WithoutChar("<!-- HUMAN BLOCK ", "(agent never touches) -->", '\n');
    WithoutChar("<!-- HUMAN BLOCK ", "(agent never touches) -->", '`');
  }

  lemma OthersHaveNone(b: string)
    requires HumanMark(b)
    ensures !Contains(AUTO_START, b) && !Contains(AUTO_END, b)
  {
    OtherMarkerHasNone("<!-- AUTO-GENERATED BLOCK ", "(indexer owns this; do not hand-edit) -->", b);
    OtherMarkerHasNone("<!-- END AUTO-GENERATED", " BLOCK -->", b);
  }

  lemma HumanIsSound()
    ensures Sound(HUMAN) && HumanMark(HUMAN.start)
  {
    HumanStartIsMark();
  }

  // --- line by line ------------------------------------------------------------------------------------

  ghost predicate AnyContains(ss: seq<string>, b: string) {
    exists s :: s in ss && Contains(s, b)
  }

  /** A name between backquotes, after a plain prefix and before anything. */
  lemma QuotedContains(p: string, name: string, rest: string, b: string)
    requires Plain(p) && HumanMark(b)
    ensures Contains(p + name + "`" + rest, b) <==> Contains(name, b) || Contains(rest, b)
  {
    assert p + name + "`" + rest == (p + name) + ['`'] + rest;
    BreakContains(p + name, '`', rest, b);
    PlainPrefix(p, name, b);
  }

  lemma {:induction false} NamesContain(names: seq<string>, b: string)
    requires HumanMark(b)
    ensures Contains(Join(Quoted(names), ", "), b) <==> AnyContains(names, b)
    decreases names
  {
    if names == [] {
    } else if |names| == 1 {
      assert Quoted(names)[0] == "`" + names[0] + "`" + "";
      QuotedContains("`", names[0], "", b);
      assert names[0] in names && forall s :: s in names ==> s == names[0];
    } else {
      NamesContain(names[1..], b);
      assert Quoted(names)[1..] == Quoted(names[1..]);
      var rest := Join(Quoted(names[1..]), ", ");
      assert Join(Quoted(names), ", ") == "`" + names[0] + "`" + (", " + rest);
      QuotedContains("`", names[0], ", " + rest, b);
      PlainPrefix(", ", rest, b);
      assert names == [names[0]] + names[1..];
      assert AnyContains([names[0]], b) <==> Contains(names[0], b) by { assert names[0] in [names[0]]; }
    }
  }

  lemma AreaLineContains(file: string, syms: seq<Node>, b: string)
    requires HumanMark(b)
    ensures Contains(AreaLine(file, syms), b) <==> Contains(file, b) || AnyContains(QualNames(syms), b)
  {
    var sorted := StableSort(syms, LineBefore);
    var names := Join(Quoted(QualNames(sorted)), ", ");
    assert AreaLine(file, syms) == "- `" + file + "`" + (" \U{2014} " + names);
    QuotedContains("- `", file, " \U{2014} " + names, b);
    PlainPrefix(" \U{2014} ", names, b);
    NamesContain(QualNames(sorted), b);
    SortedMembers(syms, LineBefore);
    SameNames(sorted, syms, b);
  }

  lemma SameNames(ms: seq<Node>, ns: seq<Node>, b: string)
    requires forall n :: n in ms <==> n in ns
    ensures AnyContains(QualNames(ms), b) <==> AnyContains(QualNames(ns), b)
  {
    NamesOfNodes(ms, b);
    NamesOfNodes(ns, b);
  }

  lemma NamesOfNodes(ns: seq<Node>, b: string)
    ensures AnyContains(QualNames(ns), b) <==> exists n :: n in ns && Contains(n.qualname, b)
  {
    if s :| s in QualNames(ns) && Contains(s, b) {
      var i :| 0 <= i < |ns| && QualNames(ns)[i] == s;
      assert ns[i] in ns;
    }
    if n :| n in ns && Contains(n.qualname, b) {
      var i :| 0 <= i < |ns| && ns[i] == n;
      assert QualNames(ns)[i] in QualNames(ns);
    }
  }

  /** A file path or a qualname of the graph holds the marker. */
  ghost predicate TaintedNode(n: Node, b: string) {
    Contains(n.file, b) || Contains(n.qualname, b)
  }

  lemma {:induction false} LinesContain(files: seq<string>, ns: seq<Node>, b: string)
    requires HumanMark(b)
    ensures AnyContains(LinesFor(files, ns), b) <==>
      exists f :: f in files && (Contains(f, b) || AnyContains(QualNames(Group(ns, FileOf, f)), b))
    decreases files
  {
    if files != [] {
      var init, f := files[..|files| - 1], files[|files| - 1];
      LinesContain(init, ns, b);
      var line := AreaLine(f, Group(ns, FileOf, f));
      AreaLineContains(f, Group(ns, FileOf, f), b);
      assert AnyContains([line], b) <==> Contains(line, b) by { assert line in [line]; }
      assert files == init + [f];
    }
  }

  /** The areas name every file and every symbol, so they show whatever is tainted. */
  lemma AreasContain(ns: seq<Node>, b: string)
    requires HumanMark(b)
    ensures AnyContains(AreaLines(ns), b) <==> exists n :: n in ns && TaintedNode(n, b)
  {
    LinesContain(Files(ns), ns, b);
    if f :| f in Files(ns) && (Contains(f, b) || AnyContains(QualNames(Group(ns, FileOf, f)), b)) {
      TaintedFile(ns, f, b);
    }
    if n :| n in ns && TaintedNode(n, b) {
      OneAreaPerFile(ns, n.file);
      GroupMembers(ns, FileOf, n.file, n);
      NamesOfNodes(Group(ns, FileOf, n.file), b);
      assert FileOf(n) == n.file;
    }
  }

  lemma TaintedFile(ns: seq<Node>, f: string, b: string)
    requires f in Files(ns) && (Contains(f, b) || AnyContains(QualNames(Group(ns, FileOf, f)), b))
    ensures exists n :: n in ns && TaintedNode(n, b)
  {
    if Contains(f, b) {
      OneAreaPerFile(ns, f);
      var n :| n in ns && n.file == f;
      assert TaintedNode(n, b);
    } else {
      NamesOfNodes(Group(ns, FileOf, f), b);
      var n :| n in Group(ns, FileOf, f) && Contains(n.qualname, b);
      GroupMembers(ns, FileOf, f, n);
      assert TaintedNode(n, b);
    }
  }

  /** The entry points name nothing the areas do not. */
  lemma EntriesContain(ns: seq<Node>, edges: seq<Edge>, b: string)
    requires HumanMark(b) && AnyContains(EntryLines(ns, edges), b)
    ensures exists n :: n in ns && TaintedNode(n, b)
  {
    var es := Entries(ns, Called(edges));
    var names := StableSort(QualNames(es), TextBefore);
    var i :| 0 <= i < |names| && Contains(Bulleted(names)[i], b);
    assert Bulleted(names)[i] == "- `" + names[i] + "`" + "";
    QuotedContains("- `", names[i], "", b);
    SortedMembers(QualNames(es), TextBefore);
    assert names[i] in names && names[i] in QualNames(es);
    var j :| 0 <= j < |es| && QualNames(es)[j] == names[i];
    assert es[j] in es;
    WhereFinds(ns, m => IsEntry(m, Called(edges)), es[j]);
    assert TaintedNode(es[j], b);
  }

  // --- the keywords are lower-case -------------------------------------------------------------------------

  predicate NoCapitalH(s: string) {
    'H' !in s
  }

  lemma {:induction false} WordsAreLower(parts: seq<string>, isFile: bool)
    ensures forall w :: w in WordsOf(parts, isFile) ==> NoCapitalH(w)
    decreases parts
  {
    if parts != [] { WordsAreLower(parts[..|parts| - 1], isFile); }
  }

  lemma {:induction false} AllWordsAreLower(ns: seq<Node>)
    ensures forall w :: w in AllWords(ns) ==> NoCapitalH(w)
    decreases ns
  {
    if ns != [] {
      AllWordsAreLower(ns[..|ns| - 1]);
      WordsAreLower(SplitOn(ns[|ns| - 1].name, {'_', '.'}), false);
      WordsAreLower(SplitOn(ns[|ns| - 1].file, {'/', '.'}), true);
    }
  }

  lemma {:induction false} JoinIsLower(words: seq<string>)
    requires forall w :: w in words ==> NoCapitalH(w)
    ensures NoCapitalH(Join(words, " "))
    decreases words
  {
    if words != [] { assert words[0] in words; }
    if |words| > 1 {
      assert forall w :: w in words[1..] ==> w in words;
      JoinIsLower(words[1..]);
      WithoutChar(words[0] + " ", Join(words[1..], " "), 'H');
    }
  }

  lemma KeywordsHaveNone(ns: seq<Node>, b: string)
    requires HumanMark(b)
    ensures !Contains(Or(Join(Keywords(ns), " "), "(none)"), b)
  {
    AllWordsAreLower(ns);
    SortedMembers(Firsts(AllWords(ns)), TextBefore);
    JoinIsLower(Keywords(ns));
  }

  // --- the head ----------------------------------------------------------------------------------------------

  lemma {:induction false} SplitOne(s: string)
    requires |SplitOn(s, {'/'})| == 1
    ensures SplitOn(s, {'/'}) == [s]
    decreases s
  {
    if s != "" {
      SplitOne(s[1..]);
      assert s == [s[0]] + s[1..];
    }
  }

  lemma LastPartStep(s: string)
    requires s != ""
    ensures LastPart(s) == s || LastPart(s) == LastPart(s[1..])
  {
    var rest := SplitOn(s[1..], {'/'});
    if s[0] != '/' && |rest| == 1 {
      SplitOne(s[1..]);
      assert [s[0]] + s[1..] == s;
    }
  }

  lemma {:induction false} LastPartIsSuffix(s: string) returns (k: nat)
    ensures k <= |s| && LastPart(s) == s[k..]
    decreases s
  {
    k := 0;
    if s != "" {
      LastPartStep(s);
      if LastPart(s) != s {
        var j := LastPartIsSuffix(s[1..]);
        k := j + 1;
      }
    }
  }

  lemma LastPartContains(s: string, b: string)
    requires Contains(LastPart(s), b)
    ensures Contains(s, b)
  {
    var k := LastPartIsSuffix(s);
    assert s[k..|s|] == s[k..];
    var q: nat :| Occurs(LastPart(s), b, q);
    OccursOutside(s, b, q, k, |s|);
  }

  lemma OrContains(s: string, b: string)
    requires b != "" && b[0] == '<'
    ensures Contains(Or(s, "unknown"), b) <==> Contains(s, b)
  {
  }

  lemma HeadContains(s: Subject, b: string)
    requires HumanMark(b)
    ensures AnyContains(HeadLines(s), b) <==>
      Contains(s.project, b) || Contains(s.sha, b) || Contains(s.generatedAt, b)
  {
    var lines := HeadLines(s);
    PlainPrefix("project: ", s.project, b);
    PlainPrefix("sha: ", Or(s.sha, "unknown"), b);
    PlainPrefix("generated_at: ", Or(s.generatedAt, "unknown"), b);
    PlainPrefix("# ", LastPart(s.project), b);
    OrContains(s.sha, b);
    OrContains(s.generatedAt, b);
    if Contains(LastPart(s.project), b) { LastPartContains(s.project, b); }
    FixedLinesHaveNone(b);
    assert lines[0] in lines && lines[1] in lines && lines[2] in lines;
  }

  lemma FixedLinesHaveNone(b: string)
    requires HumanMark(b)
    ensures !Contains("", b) && !Contains("## Areas", b)
    ensures !Contains("Auto-generated structural summary " + "(symbols + areas from the code graph).", b)
  {
    TitleHasNone(b);
  }

  lemma TitleHasNone(b: string)
    requires HumanMark(b)
    ensures !Contains("Auto-generated structural summary " + "(symbols + areas from the code graph).", b)
  {
    WithoutChar("Auto-generated structural summary ", "(symbols + areas from the code graph).", '<');
  }

  // --- the human block ----------------------------------------------------------------------------------

  /** One of the strings a run is given holds the start marker of the human block. */
  ghost predicate Tainted(s: Subject)
    requires s.nodes.Valid()
  {
    var b := HUMAN.start;
    Contains(s.project, b) || Contains(s.sha, b) || Contains(s.generatedAt, b)
    || exists n :: n in Values(s.nodes) && TaintedNode(n, b)
  }

  lemma SectionsContain(head: seq<string>, areas: seq<string>, entries: seq<string>, words: string, b: string)
    requires HumanMark(b) && !Contains(Or(words, "(none)"), b)
    ensures AnyContains(Sections(head, areas, entries, words), b) <==>
      AnyContains(head, b) || AnyContains(areas, b) || AnyContains(entries, b)
  {
    var a, e := OrNone(areas, "- (no Python symbols found)"), OrNone(entries, "- (none)");
    var w := Or(words, "(none)");
    OrNoneContains(areas, "- (no Python symbols found)", b);
    OrNoneContains(entries, "- (none)", b);
    assert !AnyContains([w, ""], b);
  }

  lemma OrNoneContains(lines: seq<string>, none: string, b: string)
    requires Plain(none) && b != "" && b[0] == '<'
    ensures AnyContains(OrNone(lines, none), b) <==> AnyContains(lines, b)
  {
  }

  /**
    The block shows the project, the sha, the date, every file and every qualname, and nothing
    else that could hold the marker.
   */
  lemma BodyContains(s: Subject)
    requires s.nodes.Valid()
    ensures AnyContains(Body(s), HUMAN.start) <==> Tainted(s)
  {
    var ns, b := Values(s.nodes), HUMAN.start;
    HumanIsSound();
    KeywordsHaveNone(ns, b);
    HeadContains(s, b);
    AreasContain(ns, b);
    if AnyContains(EntryLines(ns, s.edges), b) { EntriesContain(ns, s.edges, b); }
    SectionsContain(HeadLines(s), AreaLines(ns), EntryLines(ns, s.edges), Join(Keywords(ns), " "), b);
  }

  lemma BlockContains(s: Subject)
    requires s.nodes.Valid()
    ensures Contains(AutoBlock(s), HUMAN.start) <==> Tainted(s)
  {
    var b := HUMAN.start;
    HumanIsSound();
    OthersHaveNone(b);
    BodyContains(s);
    var lines := [AUTO_START] + Body(s) + [AUTO_END];
    JoinContains(lines, b);
    assert AnyContains(lines, b) <==> exists l :: l in lines && Contains(l, b);
  }

  /**
    Exactly when: a re-index preserves every human block iff the start marker is in none of the
    project, the sha, the date, the file paths and the qualnames it is given.
   */
  lemma ReindexPreservesIff(s: Subject)
    requires s.nodes.Valid()
    ensures Preserves(AutoBlock(s), HUMAN) <==> !Tainted(s)
  {
    HumanIsSound();
    PreservesIff(AutoBlock(s), HUMAN);
    BlockContains(s);
  }

  function Blocks(subjects: seq<Subject>): seq<string>
    requires forall s :: s in subjects ==> s.nodes.Valid()
  {
    seq(|subjects|, i requires 0 <= i < |subjects| => AutoBlock(subjects[i]))
  }

  /** Any number of re-indexes, of any graphs that are not tainted, leave the human block as it was. */
  lemma ReindexingKeepsHuman(subjects: seq<Subject>, md: string, h: string)
    requires forall s :: s in subjects ==> s.nodes.Valid() && !Tainted(s)
    requires Extract(md, HUMAN) == Some(h) && h != ""
    ensures Extract(Regenerations(Blocks(subjects), md, HUMAN), HUMAN) == Some(h)
  {
    HumanIsSound();
    forall a | a in Blocks(subjects)
      ensures !Contains(a, HUMAN.start)
    {
      var i :| 0 <= i < |subjects| && Blocks(subjects)[i] == a;
      BlockContains(subjects[i]);
    }
    RegenerationsKeep(Blocks(subjects), md, h, HUMAN);
  }

  /** Graphs without a '<' in their strings are never tainted. */
  lemma PlainIsUntainted(s: Subject)
    requires s.nodes.Valid() && Plain(s.project) && Plain(s.sha) && Plain(s.generatedAt)
    requires forall n :: n in Values(s.nodes) ==> Plain(n.file) && Plain(n.qualname)
    ensures !Tainted(s)
  {
    var b := HUMAN.start;
    HumanIsSound();
    forall n | n in Values(s.nodes)
      ensures !TaintedNode(n, b)
    {
    }
  }

  /** One symbol in a file named like the marker: a re-index of that graph loses some human block. */
  lemma MarkerPathLosesBlock(project: string, line: int) returns (s: Subject, md: string, h: string)
    ensures s.nodes.Valid() && |s.nodes.keys| == 1 && s.project == project
    ensures Extract(md, HUMAN) == Some(h) && h != "" && Extract(WithHuman(AutoBlock(s), Some(md), HUMAN), HUMAN) != Some(h)
  {
    var n := Node("id", "f", "f", Function, HUMAN_START + ".py", line);
    s := Subject(project, "", "", Dict([n.id], map[n.id := n]), []);
    assert s.nodes.Valid() && Values(s.nodes) == [n] && n in Values(s.nodes);
    HumanIsSound();
    assert n.file[0..|HUMAN_START|] == HUMAN_START && Occurs(n.file, HUMAN.start, 0);
    assert TaintedNode(n, HUMAN.start);
    ReindexPreservesIff(s);
    md, h :| Extract(md, HUMAN) == Some(h) && h != "" && Extract(WithHuman(AutoBlock(s), Some(md), HUMAN), HUMAN) != Some(h);
  }
}
