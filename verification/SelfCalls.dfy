/**
  rca_agent/graph.py, the `self` branch of `build_graph_from_sources`: which file paths keep a
  self call inside its class, and what the others do to it.

  What a name is, is left to the language: any rule under which a name is not empty and has
  neither a dot nor a colon.
 */
module SelfCalls {
  import opened Basics
  import opened PyText
  import opened CodeGraph
  import opened GraphBuilder
  import opened GraphLinker

  ghost predicate Lexical(isName: string -> bool) {
    forall s :: isName(s) ==> s != "" && '.' !in s && ':' !in s
  }

  /** Every definition in the tree has a proper name. */
  predicate NamedTree(t: Ast, isName: string -> bool)
    decreases t, 1
  {
    (t.ClassDef? || t.FuncDef? ==> isName(t.name)) && NamedForest(t.children, isName)
  }

  predicate NamedForest(ts: seq<Ast>, isName: string -> bool)
    decreases ts, 0
  {
    ts == [] || (NamedForest(ts[..|ts| - 1], isName) && NamedTree(ts[|ts| - 1], isName))
  }

  ghost predicate NamedSources(files: seq<Source>, isName: string -> bool) {
    forall s :: s in files && Parsed(s) ==> NamedTree(s.tree.value, isName)
  }

  /** A qualname: names joined by dots. */
  ghost predicate Chained(q: string, isName: string -> bool) {
    forall p :: p in SplitOn(q, {'.'}) ==> isName(p)
  }

  // --- dotted names ------------------------------------------------------------------------------

  lemma {:induction false} SplitAtDot(a: string, b: string)
    ensures SplitOn(a + "." + b, {'.'}) == SplitOn(a, {'.'}) + SplitOn(b, {'.'})
    decreases a
  {
    var s := a + "." + b;
    if a == "" {
      assert s == "." + b && s[1..] == b;
    } else {
      assert s[1..] == a[1..] + "." + b;
      SplitAtDot(a[1..], b);
    }
  }

  lemma {:induction false} SplitNothing(a: string)
    requires '.' !in a
    ensures SplitOn(a, {'.'}) == [a]
    decreases a
  {
    if a != "" {
      SplitNothing(a[1..]);
      assert a == [a[0]] + a[1..];
    }
  }

  lemma {:induction false} DottedSplits(ns: seq<string>, n: string)
    requires '.' !in n && forall k :: k in ns ==> '.' !in k
    ensures SplitOn(Dotted(ns, n), {'.'}) == ns + [n]
    decreases ns
  {
    if ns == [] {
      SplitNothing(n);
    } else {
      assert ns[0] in ns && forall k :: k in ns[1..] ==> k in ns;
      DottedSplits(ns[1..], n);
      SplitNothing(ns[0]);
      SplitAtDot(ns[0], Dotted(ns[1..], n));
      assert ns + [n] == [ns[0]] + (ns[1..] + [n]);
    }
  }

  lemma InitOfCons(x: string, s: seq<string>)
    requires s != []
    ensures ([x] + s)[..|s|] == [x] + s[..|s| - 1]
  {
  }

  /** Joining what was split gives the text back. */
  lemma {:induction false} DottedOfSplit(d: string)
    ensures var ns := SplitOn(d, {'.'}); Dotted(ns[..|ns| - 1], ns[|ns| - 1]) == d
    decreases d
  {
    if d != "" {
      var rest := SplitOn(d[1..], {'.'});
      DottedOfSplit(d[1..]);
      var ns := SplitOn(d, {'.'});
      if d[0] == '.' {
        InitOfCons("", rest);
        assert ([""] + rest[..|rest| - 1])[1..] == rest[..|rest| - 1];
      } else if |rest| > 1 {
        InitOfCons([d[0]] + rest[0], rest[1..]);
        assert ns[..|ns| - 1][1..] == rest[1..][..|rest| - 2] == rest[..|rest| - 1][1..];
      }
      assert d == [d[0]] + d[1..];
    }
  }

  lemma {:induction false} DottedAppends(a: seq<string>, x: string, b: seq<string>, m: string)
    ensures Dotted(a + [x] + b, m) == Dotted(a, x) + "." + Dotted(b, m)
    decreases a
  {
    var s := a + [x] + b;
    if a == [] {
      assert s[0] == x && s[1..] == b;
    } else {
      assert s[0] == a[0] && s[1..] == a[1..] + [x] + b;
      DottedAppends(a[1..], x, b, m);
    }
  }

  /** A piece of the tail is a piece of the whole, or has grown by the first character. */
  lemma {:induction false} PartStays(q: string, p: string, c: char)
    requires q != "" && p in SplitOn(q[1..], {'.'}) && c in p
    ensures exists p' :: p' in SplitOn(q, {'.'}) && c in p'
  {
    var rest, parts := SplitOn(q[1..], {'.'}), SplitOn(q, {'.'});
    var i :| 0 <= i < |rest| && rest[i] == p;
    if q[0] == '.' {
      assert parts[i + 1] in parts;
    } else {
      assert parts[i] in parts && c in parts[i];
    }
  }

  lemma {:induction false} ColonIsSomewhere(q: string)
    requires ':' in q
    ensures exists p :: p in SplitOn(q, {'.'}) && ':' in p
    decreases q
  {
    var rest := SplitOn(q[1..], {'.'});
    var parts := SplitOn(q, {'.'});
    if q[0] == ':' {
      assert ':' in parts[0] && parts[0] in parts;
    } else {
      assert ':' in q[1..];
      ColonIsSomewhere(q[1..]);
      var p :| p in rest && ':' in p;
      PartStays(q, p, ':');
    }
  }

  lemma ChainHasNoColon(q: string, isName: string -> bool)
    requires Lexical(isName) && Chained(q, isName)
    ensures ':' !in q
  {
    if ':' in q { ColonIsSomewhere(q); }
  }

  lemma ChainPrefix(d: string, x: string, isName: string -> bool)
    requires Chained(d + "." + x, isName)
    ensures Chained(d, isName)
  {
    SplitAtDot(d, x);
    assert forall p :: p in SplitOn(d, {'.'}) ==> p in SplitOn(d + "." + x, {'.'});
  }

  lemma {:induction false} LastDotSkips(a: string, b: string)
    requires '.' !in b
    ensures BeforeLastDot(a + b) == BeforeLastDot(a)
    decreases b
  {
    var s := a + b;
    if b == "" {
      assert s == a;
    } else {
      assert s[|s| - 1] == b[|b| - 1] && s[..|s| - 1] == a + b[..|b| - 1];
      LastDotSkips(a, b[..|b| - 1]);
    }
  }

  lemma LastDotAt(a: string, b: string)
    requires '.' !in b
    ensures BeforeLastDot(a + "." + b) == Some(a)
  {
    LastDotSkips(a + ".", b);
    assert (a + ".")[..|a|] == a;
  }

  // --- ids -----------------------------------------------------------------------------------------

  /** Qualnames without colons: an id has one file and one qualname only. */
  lemma IdIsUnique(file: string, qual: string, file': string, qual': string)
    requires MakeId(file, qual) == MakeId(file', qual') && ':' !in qual && ':' !in qual'
    ensures file == file' && qual == qual'
  {
    var s := MakeId(file, qual);
    assert s == file + ("::" + qual) && s == file' + ("::" + qual');
    if |qual| < |qual'| {
      NoColonAt(file, qual, file', qual');
    } else if |qual'| < |qual| {
      NoColonAt(file', qual', file, qual);
    } else {
      assert s[..|file|] == file && s[..|file'|] == file';
      assert s[|file| + 2..] == qual && s[|file'| + 2..] == qual';
    }
  }

  lemma NoColonAt(file: string, qual: string, file': string, qual': string)
    requires |qual| < |qual'| && ':' !in qual'
    ensures MakeId(file, qual) != MakeId(file', qual')
  {
    var k := |qual'| - |qual| - 1;
    var s, s' := MakeId(file, qual), MakeId(file', qual');
    assert qual'[k] in qual';
    if |s| == |s'| {
      assert s[|file| + 1] == ':' && s'[|file'| + 2 + k] == qual'[k];
    }
  }

  /** A path with a "::" in it: splitting at the first one leaves a piece of the path in front. */
  lemma {:induction false} StrayPiece(path: string, q: string, i: nat)
    requires i + 1 < |path| && path[i] == ':' && path[i + 1] == ':'
    ensures AfterSep(MakeId(path, q)) == AfterSep(path) + "::" + q
    decreases path
  {
    var s := MakeId(path, q);
    assert s[0] == path[0] && s[1] == path[1];
    if path[0] == ':' && path[1] == ':' {
      assert s[2..] == path[2..] + "::" + q;
    } else {
      assert s[1..] == MakeId(path[1..], q);
      StrayPiece(path[1..], q, i - 1);
    }
  }

  /** What stands between the first "::" of a path and its last dot. */
  function StrayClass(path: string): Option<string> {
    if ColonFree(path) then None else BeforeLastDot(AfterSep(path))
  }

  lemma SepOfPath(path: string) returns (i: nat)
    requires IsPython(path) && !ColonFree(path)
    ensures i + 1 < |path| && path[i] == ':' && path[i + 1] == ':'
  {
    assert path[|path| - 3..][2] == path[|path| - 1];
    i :| 0 <= i < |path| - 1 && path[i] == ':' && path[i + 1] == ':';
  }

  /** The class a self call is looked up in: for a bare function, one the path makes up. */
  lemma StrayLookup(path: string, f: string)
    requires IsPython(path) && !ColonFree(path) && '.' !in f
    ensures BeforeLastDot(AfterSep(MakeId(path, f))) == StrayClass(path)
  {
    var i := SepOfPath(path);
    StrayPiece(path, f, i);
    assert AfterSep(path) + "::" + f == AfterSep(path) + ("::" + f);
    LastDotSkips(AfterSep(path), "::" + f);
  }

  /** For a method, no class at all. */
  lemma StrayMethodLookup(path: string, k: string, m: string)
    requires IsPython(path) && !ColonFree(path) && '.' !in m
    ensures var cls := BeforeLastDot(AfterSep(MakeId(path, k + "." + m))); cls.Some? && ':' in cls.value
  {
    var i := SepOfPath(path);
    StrayPiece(path, k + "." + m, i);
    var cls := AfterSep(path) + "::" + k;
    assert AfterSep(path) + "::" + (k + "." + m) == cls + "." + m;
    LastDotAt(cls, m);
    assert cls[|AfterSep(path)|] == ':';
  }

  // --- what the collected nodes are ------------------------------------------------------------------

  /** The place of a tree is all proper names. */
  predicate NamedPlace(chain: seq<Frame>, isName: string -> bool) {
    forall f :: f in chain ==> isName(f.name)
  }

  lemma {:induction false} ClassesAreNames(chain: seq<Frame>, isName: string -> bool)
    requires NamedPlace(chain, isName)
    ensures forall c :: c in ClassesOf(chain) ==> isName(c)
    decreases chain
  {
    if chain != [] {
      assert chain[|chain| - 1] in chain && forall f :: f in chain[..|chain| - 1] ==> f in chain;
      ClassesAreNames(chain[..|chain| - 1], isName);
    }
  }

  lemma QualIsChain(chain: seq<Frame>, name: string, isName: string -> bool)
    requires Lexical(isName) && NamedPlace(chain, isName) && isName(name)
    ensures Chained(QualIn(chain, name), isName)
  {
    ClassesAreNames(chain, isName);
    DottedSplits(ClassesOf(chain), name);
  }

  ghost predicate PlacedIn(ns: seq<Node>, file: string, isName: string -> bool) {
    forall n :: n in ns ==> n.file == file && Chained(n.qualname, isName)
  }

  lemma {:induction false} TreeIsPlaced(t: Ast, file: string, chain: seq<Frame>, isName: string -> bool)
    requires Lexical(isName) && NamedTree(t, isName) && NamedPlace(chain, isName)
    ensures PlacedIn(NodesIn(t, file, chain), file, isName)
    decreases t, 1
  {
    if t.ClassDef? || t.FuncDef? { QualIsChain(chain, t.name, isName); }
    ForestIsPlaced(t.children, file, Below(t, chain), isName);
  }

  lemma {:induction false} ForestIsPlaced(ts: seq<Ast>, file: string, chain: seq<Frame>, isName: string -> bool)
    requires Lexical(isName) && NamedForest(ts, isName) && NamedPlace(chain, isName)
    ensures PlacedIn(NodesInAll(ts, file, chain), file, isName)
    decreases ts, 0
  {
    if ts != [] {
      ForestIsPlaced(ts[..|ts| - 1], file, chain, isName);
      TreeIsPlaced(ts[|ts| - 1], file, chain, isName);
    }
  }

  lemma {:induction false} PutAllFrom(ns: seq<Node>, id: Id)
    requires id in PutAll(EmptyDict(), ns).vals
    ensures PutAll(EmptyDict(), ns).vals[id] in ns
    decreases ns
  {
    if ns != [] && id != ns[|ns| - 1].id { PutAllFrom(ns[..|ns| - 1], id); }
  }

  lemma {:induction false} UpdateFrom(d: Nodes, e: Nodes, k: nat, id: Id)
    requires k <= |e.keys| && (forall i :: i in e.keys ==> i in e.vals) && id in UpdateWith(d, e, k).vals
    ensures (id in e.vals && UpdateWith(d, e, k).vals[id] == e.vals[id])
         || (id in d.vals && UpdateWith(d, e, k).vals[id] == d.vals[id])
    decreases k
  {
    if k > 0 && id != e.keys[k - 1] { UpdateFrom(d, e, k - 1, id); }
  }

  /** Every collected node was defined in one of the files. */
  lemma {:induction false} NodeHasSource(files: seq<Source>, id: Id) returns (s: Source)
    requires id in AllNodes(files).vals
    ensures s in files && Parsed(s) && AllNodes(files).vals[id] in FileNodes(s)
    decreases files
  {
    var init, last := files[..|files| - 1], files[|files| - 1];
    if Parsed(last) {
      var own := PutAll(EmptyDict(), FileNodes(last));
      NodesNamed(last.tree.value, last.path, []);
      PutAllFacts(FileNodes(last));
      UpdateFrom(AllNodes(init), own, |own.keys|, id);
      if id in own.vals && AllNodes(files).vals[id] == own.vals[id] {
        PutAllFrom(FileNodes(last), id);
        s := last;
        return;
      }
    }
    s := NodeHasSource(init, id);
  }

  lemma NodeIsChained(files: seq<Source>, id: Id, isName: string -> bool)
    requires Lexical(isName) && NamedSources(files, isName) && id in AllNodes(files).vals
    ensures Chained(AllNodes(files).vals[id].qualname, isName) && ':' !in AllNodes(files).vals[id].qualname
  {
    var s := NodeHasSource(files, id);
    TreeIsPlaced(s.tree.value, s.path, [], isName);
    ChainHasNoColon(AllNodes(files).vals[id].qualname, isName);
  }

  lemma {:induction false} CallHasSource(files: seq<Source>, c: FileCall) returns (s: Source)
    requires c in AllCalls(files)
    ensures s in files && Parsed(s) && c in InFile(s.path, CallsIn(s.tree.value, s.path, []))
    decreases files
  {
    var init, last := files[..|files| - 1], files[|files| - 1];
    if Parsed(last) && c in InFile(last.path, CallsIn(last.tree.value, last.path, [])) {
      s := last;
    } else {
      s := CallHasSource(init, c);
    }
  }

  /** The function a call of one file is made in. */
  lemma CallerNode(s: Source, c: FileCall, isName: string -> bool) returns (n: Node)
    requires Lexical(isName) && Parsed(s) && NamedTree(s.tree.value, isName)
    requires c in InFile(s.path, CallsIn(s.tree.value, s.path, []))
    ensures n.id == c.caller == MakeId(c.file, n.qualname) && n.file == c.file && ':' !in n.qualname
    ensures n in FileNodes(s)
  {
    var cs, ns := CallsIn(s.tree.value, s.path, []), NodesIn(s.tree.value, s.path, []);
    InFileAre(s.path, cs, c);
    CallersDefined(s.tree.value, s.path, []);
    assert RawCall(Some(c.caller), c.name, c.isSelf) in cs && Enclosing(s.path, []) == None;
    n :| n in ns && n.id == c.caller;
    TreeIsPlaced(s.tree.value, s.path, [], isName);
    NodesNamed(s.tree.value, s.path, []);
    ChainHasNoColon(n.qualname, isName);
  }

  /** The caller of a collected call is a node of the file the call is in. */
  lemma {:induction false} CallerIsInItsFile(files: seq<Source>, c: FileCall, isName: string -> bool)
    requires Lexical(isName) && NamedSources(files, isName) && c in AllCalls(files)
    ensures c.caller in AllNodes(files).vals && AllNodes(files).vals[c.caller].file == c.file
  {
    CollectedFacts(files);
    var s := CallHasSource(files, c);
    var n := CallerNode(s, c, isName);
    var v := AllNodes(files).vals[c.caller];
    NodeIsChained(files, c.caller, isName);
    IdIsUnique(v.file, v.qualname, n.file, n.qualname);
  }

  // --- the promise -----------------------------------------------------------------------------------

  /** The edges a call of these files asks for. */
  ghost function Asked(files: seq<Source>, c: FileCall): seq<Edge> {
    CollectedFacts(files);
    EdgesFor(AllNodes(files), c)
  }

  /** Every edge of a self call made in this file, whatever the files, stays in the caller's class. */
  ghost predicate SelfCallsStay(path: string, isName: string -> bool) {
    forall files, c, e :: NamedSources(files, isName) && IsSelfCallIn(files, c, path) && e in Asked(files, c) ==>
      e.src in AllNodes(files).vals && e.dst in AllNodes(files).vals
      && InOneClass(AllNodes(files).vals[e.src], AllNodes(files).vals[e.dst], c.name)
  }

  predicate IsSelfCallIn(files: seq<Source>, c: FileCall, path: string) {
    c in AllCalls(files) && c.isSelf && c.file == path
  }

  /** In a file with such a path, an edge of a self call gives away a class the path reads as. */
  lemma {:induction false} StrayEdgeNeedsClass(files: seq<Source>, c: FileCall, e: Edge, isName: string -> bool)
    requires Lexical(isName) && NamedSources(files, isName) && c in AllCalls(files) && c.isSelf
    requires IsPython(c.file) && !ColonFree(c.file) && e in Asked(files, c)
    ensures StrayClass(c.file).Some? && Chained(StrayClass(c.file).value, isName)
  {
    CollectedFacts(files);
    var nodes := AllNodes(files);
    EdgesForFacts(nodes, c, e);
    CallerIsInItsFile(files, c, isName);
    NodeIsChained(files, e.dst, isName);
    var q := nodes.vals[c.caller].qualname;
    BeforeLastDotIs(q);
    if BeforeLastDot(q).None? {
      StrayLookup(c.file, q);
      ChainPrefix(StrayClass(c.file).value, c.name, isName);
    } else {
      var k := BeforeLastDot(q).value;
      var m: string :| '.' !in m && q == k + "." + m;
      StrayMethodLookup(c.file, k, m);
      assert false;
    }
  }

  // --- and where it breaks -----------------------------------------------------------------------------

  /** Classes inside each other, the innermost with one method. */
  function Nest(ns: seq<string>, m: string): Ast {
    if ns == [] then FuncDef(m, 2, []) else ClassDef(ns[0], 2, [Nest(ns[1..], m)])
  }

  /** The classes of `ns` with one method, and a plain function whose body calls that method on `self`. */
  function StrayTree(ns: seq<string>): Ast
    requires ns != []
  {
    Other([Nest(ns, ns[0]), FuncDef(ns[0], 9, [Call(ByAttr(ns[0], true), [])])])
  }

  lemma OneChild(t: Ast, file: string, chain: seq<Frame>)
    ensures NodesInAll([t], file, chain) == NodesIn(t, file, chain)
    ensures CallsInAll([t], file, chain) == CallsIn(t, file, chain)
  {
    assert [t][..0] == [];
  }

  lemma TwoChildren(t: Ast, u: Ast, file: string, chain: seq<Frame>)
    ensures NodesInAll([t, u], file, chain) == NodesIn(t, file, chain) + NodesIn(u, file, chain)
    ensures CallsInAll([t, u], file, chain) == CallsIn(t, file, chain) + CallsIn(u, file, chain)
  {
    assert [t, u][..1] == [t];
    OneChild(t, file, chain);
  }

  function Deep(chain: seq<Frame>, ns: seq<string>): seq<Frame> {
    chain + seq(|ns|, i requires 0 <= i < |ns| => InClass(ns[i]))
  }

  lemma DeepInit(chain: seq<Frame>, ns: seq<string>)
    requires ns != []
    ensures var d, n := Deep(chain, ns), |ns| - 1;
      d[..|d| - 1] == Deep(chain, ns[..n]) && d[|d| - 1] == InClass(ns[n])
  {
  }

  lemma {:induction false} DeepClasses(chain: seq<Frame>, ns: seq<string>)
    ensures ClassesOf(Deep(chain, ns)) == ClassesOf(chain) + ns
    decreases ns
  {
    var n := |ns|;
    if n == 0 {
      assert Deep(chain, ns) == chain;
    } else {
      DeepClasses(chain, ns[..n - 1]);
      DeepInit(chain, ns);
      assert (ClassesOf(chain) + ns[..n - 1]) + [ns[n - 1]] == ClassesOf(chain) + ns;
    }
  }

  function NestedMethod(file: string, chain: seq<Frame>, ns: seq<string>, m: string): Node {
    NodeFor(file, Deep(chain, ns), m, false, 2)
  }

  lemma NestUnfolds(file: string, chain: seq<Frame>, ns: seq<string>, m: string)
    requires ns != []
    ensures var inner := chain + [InClass(ns[0])];
      && NodesIn(Nest(ns, m), file, chain) == [NodeFor(file, chain, ns[0], true, 2)] + NodesIn(Nest(ns[1..], m), file, inner)
      && NestedMethod(file, inner, ns[1..], m) == NestedMethod(file, chain, ns, m)
  {
    var inner := chain + [InClass(ns[0])];
    OneChild(Nest(ns[1..], m), file, inner);
    assert Deep(inner, ns[1..]) == Deep(chain, ns);
  }

  lemma ClassIsShorter(file: string, chain: seq<Frame>, ns: seq<string>, m: string)
    requires ns != []
    ensures |QualIn(chain, ns[0])| < |NestedMethod(file, chain, ns, m).qualname|
  {
    DeepClasses(chain, ns);
    assert ClassesOf(chain) + ns == ClassesOf(chain) + [ns[0]] + ns[1..];
    DottedAppends(ClassesOf(chain), ns[0], ns[1..], m);
  }

  /** The method is there, and everything else in the nest has a shorter qualname. */
  lemma {:induction false} NestNodes(file: string, chain: seq<Frame>, ns: seq<string>, m: string)
    ensures var target, all := NestedMethod(file, chain, ns, m), NodesIn(Nest(ns, m), file, chain);
      target in all && forall n :: n in all ==> n == target || |n.qualname| < |target.qualname|
    decreases ns
  {
    if ns == [] {
      assert Deep(chain, ns) == chain;
    } else {
      NestUnfolds(file, chain, ns, m);
      ClassIsShorter(file, chain, ns, m);
      NestNodes(file, chain + [InClass(ns[0])], ns[1..], m);
    }
  }

  lemma {:induction false} NestIsNamed(ns: seq<string>, m: string, isName: string -> bool)
    requires isName(m) && forall n :: n in ns ==> isName(n)
    ensures NamedTree(Nest(ns, m), isName)
    decreases ns
  {
    if ns != [] {
      assert ns[0] in ns && forall n :: n in ns[1..] ==> n in ns;
      NestIsNamed(ns[1..], m, isName);
      assert [Nest(ns[1..], m)][..0] == [];
    }
  }

  lemma StrayTreeIsNamed(ns: seq<string>, isName: string -> bool)
    requires ns != [] && forall n :: n in ns ==> isName(n)
    ensures NamedTree(StrayTree(ns), isName)
  {
    assert ns[0] in ns;
    NestIsNamed(ns, ns[0], isName);
    var call := Call(ByAttr(ns[0], true), []);
    var func := FuncDef(ns[0], 9, [call]);
    var forest := [Nest(ns, ns[0]), func];
    assert [call][..0] == [] && forest[..1] == [Nest(ns, ns[0])] && forest[..1][..0] == [];
    assert NamedForest([], isName) && NamedTree(call, isName) && NamedForest([call], isName) && NamedTree(func, isName);
    assert NamedForest(forest[..1], isName) && NamedForest(forest, isName);
  }

  lemma {:induction false} TargetIs(path: string, ns: seq<string>)
    requires ns != []
    ensures var target := NestedMethod(path, [], ns, ns[0]);
      && target.kind == Method && target.file == path && target.qualname == Dotted(ns, ns[0])
      && |ns[0]| < |target.qualname|
  {
    DeepClasses([], ns);
    assert [] + ns == ns && [] + [ns[0]] + ns[1..] == ns;
    DottedAppends([], ns[0], ns[1..], ns[0]);
  }

  /** What the tree defines: the method, and only shorter qualnames beside it. */
  lemma StrayTreeNodes(path: string, ns: seq<string>)
    requires ns != []
    ensures var all, target := NodesIn(StrayTree(ns), path, []), NestedMethod(path, [], ns, ns[0]);
      target in all && forall n :: n in all ==> n == target || |n.qualname| < |target.qualname|
  {
    var func := FuncDef(ns[0], 9, [Call(ByAttr(ns[0], true), [])]);
    var nest := NodesIn(Nest(ns, ns[0]), path, []);
    StrayTreeSplits(path, ns);
    NestNodes(path, [], ns, ns[0]);
    TargetIs(path, ns);
    hide NodesIn, NestedMethod, Nest, StrayTree;
    assert forall n :: n in nest + [NodeFor(path, [], ns[0], false, 9)] <==> n in nest || n == NodeFor(path, [], ns[0], false, 9);
  }

  lemma StrayTreeSplits(path: string, ns: seq<string>)
    requires ns != []
    ensures NodesIn(StrayTree(ns), path, []) == NodesIn(Nest(ns, ns[0]), path, []) + [NodeFor(path, [], ns[0], false, 9)]
  {
    var func := FuncDef(ns[0], 9, [Call(ByAttr(ns[0], true), [])]);
    TwoChildren(Nest(ns, ns[0]), func, path, []);
    FuncNodes(path, ns[0]);
  }

  lemma FuncNodes(path: string, f: string)
    ensures NodesIn(FuncDef(f, 9, [Call(ByAttr(f, true), [])]), path, []) == [NodeFor(path, [], f, false, 9)]
    ensures CallsIn(FuncDef(f, 9, [Call(ByAttr(f, true), [])]), path, []) == [RawCall(Some(MakeId(path, f)), f, true)]
  {
    var call := Call(ByAttr(f, true), []);
    OneChild(call, path, [InFunc(f)]);
    assert [] + [InFunc(f)] == [InFunc(f)] && [InFunc(f)][..0] == [];
  }

  /** And what it calls. */
  lemma StrayTreeCalls(path: string, ns: seq<string>)
    requires ns != []
    ensures RawCall(Some(MakeId(path, ns[0])), ns[0], true) in CallsIn(StrayTree(ns), path, [])
  {
    TwoChildren(Nest(ns, ns[0]), FuncDef(ns[0], 9, [Call(ByAttr(ns[0], true), [])]), path, []);
    FuncNodes(path, ns[0]);
  }

  lemma {:induction false} CandidatesHave(ids: seq<Id>, vals: map<Id, Node>, file: string, cls: string, name: string, x: Id)
    requires (forall i :: i in ids ==> i in vals) && x in ids
    requires vals[x].file == file && vals[x].kind == Method && vals[x].qualname == cls + "." + name
    ensures x in SelfCandidates(ids, vals, file, Some(cls), name)
    decreases ids
  {
    var init, last := ids[..|ids| - 1], ids[|ids| - 1];
    assert ids == init + [last];
    if x != last { CandidatesHave(init, vals, file, cls, name, x); }
  }

  lemma OneFile(s: Source)
    requires Parsed(s)
    ensures var own := PutAll(EmptyDict(), FileNodes(s));
      forall i :: i in AllNodes([s]).vals <==> i in own.vals
    ensures AllCalls([s]) == InFile(s.path, CallsIn(s.tree.value, s.path, []))
    ensures forall n :: n in FileNodes(s) ==> n.id in AllNodes([s]).vals
  {
    var own := PutAll(EmptyDict(), FileNodes(s));
    NodesNamed(s.tree.value, s.path, []);
    PutAllFacts(FileNodes(s));
    assert [s][..0] == [];
    UpdateKeys(EmptyDict(), own, |own.keys|);
    assert own.keys[..|own.keys|] == own.keys;
    assert forall i :: i in own.keys <==> i in own.vals;
  }

  /** The method of the stray file is filed as what it is. */
  lemma StrayMethodIsFiled(path: string, ns: seq<string>, isName: string -> bool)
    requires Lexical(isName) && IsPython(path) && ns != [] && forall n :: n in ns ==> isName(n)
    ensures var m := NestedMethod(path, [], ns, ns[0]);
      m.id in AllNodes([Source(path, Some(StrayTree(ns)))]).vals
      && AllNodes([Source(path, Some(StrayTree(ns)))]).vals[m.id] == m
  {
    var s := Source(path, Some(StrayTree(ns)));
    var m := NestedMethod(path, [], ns, ns[0]);
    StrayTreeIsNamed(ns, isName);
    StrayTreeNodes(path, ns);
    TargetIs(path, ns);
    OneFile(s);
    CollectedFacts([s]);
    var from := NodeHasSource([s], m.id);
    assert from == s;
    var v := AllNodes([s]).vals[m.id];
    TreeIsPlaced(s.tree.value, path, [], isName);
    ChainHasNoColon(m.qualname, isName);
    ChainHasNoColon(v.qualname, isName);
    IdIsUnique(v.file, v.qualname, m.file, m.qualname);
  }

  /** What a call asks for ends up linked in the finished graph. */
  lemma AskedIsLinked(files: seq<Source>, c: FileCall, e: Edge)
    requires c in AllCalls(files) && e in Asked(files, c)
    ensures HasPair(AllEdges(files), e.src, e.dst)
  {
    CollectedFacts(files);
    var calls := AllCalls(files);
    var j :| 0 <= j < |calls| && calls[j] == c;
    MergedAnswers(Asks(AllNodes(files), calls), j);
  }

  /**
    A path that reads as a class: one file with that path, and its graph links a plain function
    to the method of a class the function is not in.
   */
  lemma StrayPathLeavesClass(path: string, isName: string -> bool) returns (s: Source, c: FileCall, e: Edge)
    requires Lexical(isName) && IsPython(path)
    requires StrayClass(path).Some? && Chained(StrayClass(path).value, isName)
    ensures s.path == path && NamedSources([s], isName) && IsSelfCallIn([s], c, path) && e in Asked([s], c)
    ensures e.src in AllNodes([s]).vals && '.' !in AllNodes([s]).vals[e.src].qualname
    ensures HasPair(AllEdges([s]), e.src, e.dst)
  {
    hide NodesIn, Nest, AllEdges, HasPair, PutAll, UpdateWith, EdgesFor;
    var d := StrayClass(path).value;
    var ns := SplitOn(d, {'.'});
    assert ns[0] in ns && isName(ns[0]);
    s := Source(path, Some(StrayTree(ns)));
    StrayTreeIsNamed(ns, isName);
    StrayTreeNodes(path, ns);
    TargetIs(path, ns);
    StrayTreeCalls(path, ns);
    OneFile(s);
    c := FileCall(path, MakeId(path, ns[0]), ns[0], true);
    InFileAre(path, CallsIn(s.tree.value, path, []), c);
    var m := NestedMethod(path, [], ns, ns[0]);
    StrayMethodIsFiled(path, ns, isName);
    StrayLookup(path, ns[0]);
    MethodOfSplit(d);
    e := StrayEdge([s], c, d, m);
    CallerIsInItsFile([s], c, isName);
    NodeIsChained([s], c.caller, isName);
    CollectedFacts([s]);
    var v := AllNodes([s]).vals[c.caller];
    IdIsUnique(v.file, v.qualname, path, ns[0]);
    AskedIsLinked([s], c, e);
  }

  lemma {:induction false} MethodOfSplit(d: string)
    ensures var ns := SplitOn(d, {'.'}); Dotted(ns, ns[0]) == d + "." + ns[0]
  {
    var ns := SplitOn(d, {'.'});
    var init, last := ns[..|ns| - 1], ns[|ns| - 1];
    DottedOfSplit(d);
    assert ns == init + [last] + [];
    DottedAppends(init, last, [], ns[0]);
  }

  lemma StrayEdge(files: seq<Source>, c: FileCall, d: string, m: Node) returns (e: Edge)
    requires c.isSelf && BeforeLastDot(AfterSep(c.caller)) == Some(d)
    requires m.id in AllNodes(files).vals && AllNodes(files).vals[m.id] == m
    requires m.file == c.file && m.kind == Method && m.qualname == d + "." + c.name
    ensures e in Asked(files, c) && e.src == c.caller && e.dst == m.id
  {
    CollectedFacts(files);
    var nodes := AllNodes(files);
    CandidatesHave(nodes.keys, nodes.vals, c.file, d, c.name, m.id);
    var ids := Callees(nodes, c);
    var i :| 0 <= i < |ids| && ids[i] == m.id;
    e := EdgesFor(nodes, c)[i];
  }

  /**
    Exactly which paths keep the promise: self calls made in a file stay in their class, whatever
    the files, iff its path does not read as a class between its first "::" and its last dot.
   */
  lemma SelfCallsStayIff(path: string, isName: string -> bool)
    requires Lexical(isName) && IsPython(path)
    ensures SelfCallsStay(path, isName)
       <==> !(StrayClass(path).Some? && Chained(StrayClass(path).value, isName))
  {
    if StrayClass(path).Some? && Chained(StrayClass(path).value, isName) {
      var s, c, e := StrayPathLeavesClass(path, isName);
      assert NamedSources([s], isName) && IsSelfCallIn([s], c, path) && e in Asked([s], c);
      NoClassWithoutDot(AllNodes([s]).vals[e.src].qualname);
    } else {
      forall files, c, e | NamedSources(files, isName) && IsSelfCallIn(files, c, path) && e in Asked(files, c)
        ensures e.src in AllNodes(files).vals && e.dst in AllNodes(files).vals
        ensures InOneClass(AllNodes(files).vals[e.src], AllNodes(files).vals[e.dst], c.name)
      {
        CollectedFacts(files);
        if !ColonFree(path) { StrayEdgeNeedsClass(files, c, e, isName); }
        CallerIsInItsFile(files, c, isName);
        SelfCallStaysInClass(AllNodes(files), c, e);
      }
    }
  }

  lemma NoClassWithoutDot(q: string)
    requires '.' !in q
    ensures forall cls: string, m: string :: q != cls + "." + m
  {
    forall cls: string, m: string
      ensures q != cls + "." + m
    {
      assert (cls + "." + m)[|cls|] == '.';
    }
  }
}
