/**
  rca_agent/graph.py: an edge keeps the label of the first call that asks for it.  One file shows
  what that costs: a call that resolves uniquely can be left with an 'ambiguous' edge.

  The file has two classes with a method of the same name, so the bare name is ambiguous while
  `self` tells them apart.
 */
module EdgeTrust {
  import opened Basics
  import opened CodeGraph
  import opened GraphBuilder
  import opened GraphLinker
  import opened SelfCalls

  /**
    Two classes with a method `f` each; in the first, method `m` calls `f()` by its bare name and
    then `self.f()`.
   */
  function TwoClasses(a: string, b: string, m: string, f: string): Ast {
    Other([ClassDef(a, 1, [Caller(m, f), FuncDef(f, 5, [])]), ClassDef(b, 8, [FuncDef(f, 9, [])])])
  }

  function Caller(m: string, f: string): Ast {
    FuncDef(m, 2, [Call(ByName(f), []), Call(ByAttr(f, true), [])])
  }

  function MethodOf(path: string, cls: string, name: string, line: int): Node {
    NodeFor(path, [InClass(cls)], name, false, line)
  }

  lemma MethodIs(path: string, cls: string, name: string, line: int)
    ensures MethodOf(path, cls, name, line)
         == Node(MakeId(path, cls + "." + name), name, cls + "." + name, Method, path, line)
  {
    assert [InClass(cls)][..0] == [] && ClassesOf([InClass(cls)]) == [cls];
    assert [cls][1..] == [] && Dotted([cls], name) == cls + "." + name;
  }

  lemma LeafMethod(path: string, cls: string, name: string, line: int)
    ensures NodesIn(FuncDef(name, line, []), path, [InClass(cls)]) == [MethodOf(path, cls, name, line)]
    ensures CallsIn(FuncDef(name, line, []), path, [InClass(cls)]) == []
  {
  }

  lemma CallerHolds(path: string, a: string, m: string, f: string)
    ensures NodesIn(Caller(m, f), path, [InClass(a)]) == [MethodOf(path, a, m, 2)]
    ensures var id := Some(MethodOf(path, a, m, 2).id);
      CallsIn(Caller(m, f), path, [InClass(a)]) == [RawCall(id, f, false), RawCall(id, f, true)]
  {
    var inner := [InClass(a), InFunc(m)];
    assert [InClass(a)] + [InFunc(m)] == inner && inner[..1] == [InClass(a)];
    TwoChildren(Call(ByName(f), []), Call(ByAttr(f, true), []), path, inner);
  }

  lemma TreeNodes(path: string, a: string, b: string, m: string, f: string)
    ensures NodesIn(TwoClasses(a, b, m, f), path, []) ==
      [NodeFor(path, [], a, true, 1), MethodOf(path, a, m, 2), MethodOf(path, a, f, 5)]
      + [NodeFor(path, [], b, true, 8), MethodOf(path, b, f, 9)]
  {
    FirstClass(path, a, m, f);
    SecondClass(path, b, f);
    TwoChildren(ClassDef(a, 1, [Caller(m, f), FuncDef(f, 5, [])]), ClassDef(b, 8, [FuncDef(f, 9, [])]), path, []);
  }

  lemma FirstClass(path: string, a: string, m: string, f: string)
    ensures var t := ClassDef(a, 1, [Caller(m, f), FuncDef(f, 5, [])]);
      && NodesIn(t, path, []) == [NodeFor(path, [], a, true, 1), MethodOf(path, a, m, 2), MethodOf(path, a, f, 5)]
      && CallsIn(t, path, []) == CallsIn(Caller(m, f), path, [InClass(a)])
  {
    assert [] + [InClass(a)] == [InClass(a)];
    CallerHolds(path, a, m, f);
    LeafMethod(path, a, f, 5);
    TwoChildren(Caller(m, f), FuncDef(f, 5, []), path, [InClass(a)]);
  }

  lemma SecondClass(path: string, b: string, f: string)
    ensures var t := ClassDef(b, 8, [FuncDef(f, 9, [])]);
      NodesIn(t, path, []) == [NodeFor(path, [], b, true, 8), MethodOf(path, b, f, 9)] && CallsIn(t, path, []) == []
  {
    assert [] + [InClass(b)] == [InClass(b)];
    LeafMethod(path, b, f, 9);
    OneChild(FuncDef(f, 9, []), path, [InClass(b)]);
  }

  lemma TreeCalls(path: string, a: string, b: string, m: string, f: string)
    requires IsPython(path)
    ensures var id := MethodOf(path, a, m, 2).id;
      AllCalls([Source(path, Some(TwoClasses(a, b, m, f)))]) ==
        [FileCall(path, id, f, false), FileCall(path, id, f, true)]
  {
    OneFile(Source(path, Some(TwoClasses(a, b, m, f))));
    CallsOfTree(path, a, b, m, f);
    FileOfTwo(path, MethodOf(path, a, m, 2).id, f);
  }

  lemma CallsOfTree(path: string, a: string, b: string, m: string, f: string)
    ensures var id := Some(MethodOf(path, a, m, 2).id);
      CallsIn(TwoClasses(a, b, m, f), path, []) == [RawCall(id, f, false), RawCall(id, f, true)]
  {
    CallerHolds(path, a, m, f);
    FirstClass(path, a, m, f);
    SecondClass(path, b, f);
    TwoChildren(ClassDef(a, 1, [Caller(m, f), FuncDef(f, 5, [])]), ClassDef(b, 8, [FuncDef(f, 9, [])]), path, []);
  }

  lemma FileOfTwo(path: string, id: Id, f: string)
    ensures InFile(path, [RawCall(Some(id), f, false), RawCall(Some(id), f, true)])
         == [FileCall(path, id, f, false), FileCall(path, id, f, true)]
  {
    var cs := [RawCall(Some(id), f, false), RawCall(Some(id), f, true)];
    assert cs[..1] == [cs[0]] && [cs[0]][..0] == [];
    assert InFile(path, [cs[0]]) == [FileCall(path, id, f, false)];
  }

  // --- resolving the bare name -----------------------------------------------------------------------

  lemma {:induction false} ScanDistinct(ids: seq<Id>, vals: map<Id, Node>, symbol: string)
    requires NoDuplicates(ids) && forall i :: i in ids ==> i in vals
    ensures NoDuplicates(Scan(ids, vals, symbol))
    decreases ids
  {
    if ids != [] {
      var init, last := ids[..|ids| - 1], ids[|ids| - 1];
      ScanDistinct(init, vals, symbol);
      ScanFinds(init, vals, symbol, last);
      assert last !in init;
    }
  }

  lemma {:induction false} WithoutOther(ids: seq<Id>, x: Id)
    requires x !in ids
    ensures Without(ids, x) == ids
    decreases ids
  {
    if ids != [] {
      assert ids == ids[..|ids| - 1] + [ids[|ids| - 1]];
      WithoutOther(ids[..|ids| - 1], x);
    }
  }

  lemma TwoMembers(s: seq<Id>, x: Id, y: Id)
    requires NoDuplicates(s) && x != y && forall i :: i in s <==> i == x || i == y
    ensures |s| == 2
  {
    DistinctCard(s);
    assert (set i | i in s) == {x, y};
  }

  /** The five definitions, and which of them bear the name. */
  lemma BearersOf(path: string, a: string, b: string, m: string, f: string, n: Node)
    requires n in NodesIn(TwoClasses(a, b, m, f), path, []) && '.' !in f && a != f && b != f && m != f
    ensures Bears(n, f) <==> n == MethodOf(path, a, f, 5) || n == MethodOf(path, b, f, 9)
  {
    TreeNodes(path, a, b, m, f);
    MethodIs(path, a, m, 2);
    MethodIs(path, a, f, 5);
    MethodIs(path, b, f, 9);
    NoClassWithoutDot(f);
    assert NodeFor(path, [], a, true, 1).qualname == a && NodeFor(path, [], b, true, 8).qualname == b;
  }

  /** The five definitions are all filed, each as what it is. */
  lemma Filed(s: Source, n: Node, isName: string -> bool)
    requires Lexical(isName) && Parsed(s) && NamedTree(s.tree.value, isName) && n in FileNodes(s)
    requires forall o :: o in FileNodes(s) && o.qualname == n.qualname ==> o == n
    ensures n.id in AllNodes([s]).vals && AllNodes([s]).vals[n.id] == n
  {
    OneFile(s);
    var from := NodeHasSource([s], n.id);
    var v := AllNodes([s]).vals[n.id];
    CollectedFacts([s]);
    NodesNamed(s.tree.value, s.path, []);
    TreeIsPlaced(s.tree.value, s.path, [], isName);
    ChainHasNoColon(n.qualname, isName);
    ChainHasNoColon(v.qualname, isName);
    IdIsUnique(v.file, v.qualname, n.file, n.qualname);
  }

  lemma DotInside(cls: string, name: string, cls': string, name': string)
    requires '.' !in name && '.' !in name' && cls + "." + name == cls' + "." + name'
    ensures cls == cls' && name == name'
  {
    LastDotAt(cls, name);
    LastDotAt(cls', name');
    assert (cls + "." + name)[|cls| + 1..] == name && (cls' + "." + name')[|cls'| + 1..] == name';
  }

  lemma QualsDiffer(path: string, a: string, b: string, m: string, f: string, isName: string -> bool)
    requires Lexical(isName) && isName(a) && isName(b) && isName(m) && isName(f)
    requires a != b && m != f
    ensures var ns := NodesIn(TwoClasses(a, b, m, f), path, []);
      forall n, o :: n in ns && o in ns && n.qualname == o.qualname ==> n == o
  {
    TreeNodes(path, a, b, m, f);
    MethodIs(path, a, m, 2);
    MethodIs(path, a, f, 5);
    MethodIs(path, b, f, 9);
    NoClassWithoutDot(a);
    NoClassWithoutDot(b);
    assert a + "." + m != a + "." + f by { if a + "." + m == a + "." + f { DotInside(a, m, a, f); } }
    assert a + "." + m != b + "." + f by { if a + "." + m == b + "." + f { DotInside(a, m, b, f); } }
    assert a + "." + f != b + "." + f by { if a + "." + f == b + "." + f { DotInside(a, f, b, f); } }
    assert NodeFor(path, [], a, true, 1).qualname == a && NodeFor(path, [], b, true, 8).qualname == b;
  }

  lemma TreeIsNamed(a: string, b: string, m: string, f: string, isName: string -> bool)
    requires isName(a) && isName(b) && isName(m) && isName(f)
    ensures NamedTree(TwoClasses(a, b, m, f), isName)
  {
    var calls := [Call(ByName(f), []), Call(ByAttr(f, true), [])];
    var leaf := FuncDef(f, 9, []);
    var inA := [Caller(m, f), FuncDef(f, 5, [])];
    var both := [ClassDef(a, 1, inA), ClassDef(b, 8, [leaf])];
    assert NamedForest([], isName) && NamedTree(calls[0], isName) && NamedTree(calls[1], isName);
    assert calls[..1] == [calls[0]] && calls[..1][..0] == [] && NamedForest(calls[..1], isName) && NamedForest(calls, isName);
    assert inA[..1] == [inA[0]] && inA[..1][..0] == [] && NamedTree(inA[0], isName) && NamedTree(inA[1], isName);
    assert NamedForest(inA[..1], isName) && NamedForest(inA, isName);
    assert [leaf][..0] == [] && NamedTree(leaf, isName) && NamedForest([leaf], isName);
    assert both[..1] == [both[0]] && both[..1][..0] == [] && NamedTree(both[0], isName) && NamedTree(both[1], isName);
    assert NamedForest(both[..1], isName) && NamedForest(both, isName);
  }

  /** The bare name is borne by exactly the two methods. */
  lemma BareNameIsAmbiguous(path: string, a: string, b: string, m: string, f: string, isName: string -> bool)
    requires Lexical(isName) && IsPython(path) && isName(a) && isName(b) && isName(m) && isName(f)
    requires a != b && a != f && b != f && m != f
    ensures var s := Source(path, Some(TwoClasses(a, b, m, f)));
      var ids := Asked([s], FileCall(path, MethodOf(path, a, m, 2).id, f, false));
      |ids| == 2 && Edge(MethodOf(path, a, m, 2).id, MethodOf(path, a, f, 5).id, Ambiguous) in ids
  {
    var s := Source(path, Some(TwoClasses(a, b, m, f)));
    var caller, af, bf := MethodOf(path, a, m, 2), MethodOf(path, a, f, 5), MethodOf(path, b, f, 9);
    CollectedFacts([s]);
    var nodes := AllNodes([s]);
    var ids := Scan(nodes.keys, nodes.vals, f);
    ScanIs(path, a, b, m, f, isName);
    var c := FileCall(path, caller.id, f, false);
    WithoutOther(ids, caller.id);
    assert Callees(nodes, c) == ids && |ids| == 2 && af.id in ids;
    var i :| 0 <= i < |ids| && ids[i] == af.id;
    assert EdgesFor(nodes, c)[i] == Edge(caller.id, af.id, Ambiguous);
  }

  lemma ScanIs(path: string, a: string, b: string, m: string, f: string, isName: string -> bool)
    requires Lexical(isName) && IsPython(path) && isName(a) && isName(b) && isName(m) && isName(f)
    requires a != b && a != f && b != f && m != f
    ensures var nodes := AllNodes([Source(path, Some(TwoClasses(a, b, m, f)))]);
      && ValidNodes(nodes) && f !in nodes.vals
      && var ids := Scan(nodes.keys, nodes.vals, f);
         |ids| == 2 && MethodOf(path, a, f, 5).id in ids && MethodOf(path, a, m, 2).id !in ids
  {
    var s := Source(path, Some(TwoClasses(a, b, m, f)));
    var caller, af, bf := MethodOf(path, a, m, 2), MethodOf(path, a, f, 5), MethodOf(path, b, f, 9);
    CollectedFacts([s]);
    var nodes := AllNodes([s]);
    TreeNodes(path, a, b, m, f);
    MethodIsFiled(path, a, b, m, f, caller, isName);
    MethodIsFiled(path, a, b, m, f, af, isName);
    MethodIsFiled(path, a, b, m, f, bf, isName);
    DistinctIds(path, a, b, m, f, isName);
    NotAnId(nodes, f);
    var ids := Scan(nodes.keys, nodes.vals, f);
    ScanDistinct(nodes.keys, nodes.vals, f);
    forall i
      ensures i in ids <==> i == af.id || i == bf.id
    {
      ScanFinds(nodes.keys, nodes.vals, f, i);
      if i in nodes.vals {
        var from := NodeHasSource([s], i);
        BearersOf(path, a, b, m, f, nodes.vals[i]);
      }
      BearersOf(path, a, b, m, f, af);
      BearersOf(path, a, b, m, f, bf);
    }
    BearersOf(path, a, b, m, f, caller);
    TwoMembers(ids, af.id, bf.id);
  }

  lemma DistinctIds(path: string, a: string, b: string, m: string, f: string, isName: string -> bool)
    requires Lexical(isName) && isName(a) && isName(b) && isName(m) && isName(f) && a != b && m != f
    ensures MethodOf(path, a, f, 5).id != MethodOf(path, b, f, 9).id
    ensures MethodOf(path, a, m, 2).id != MethodOf(path, a, f, 5).id && MethodOf(path, a, m, 2).id != MethodOf(path, b, f, 9).id
  {
    MethodIs(path, a, m, 2);
    MethodIs(path, a, f, 5);
    MethodIs(path, b, f, 9);
    TreeNodes(path, a, b, m, f);
    QualsDiffer(path, a, b, m, f, isName);
    IdsFollowQuals(path, a + "." + f, b + "." + f);
    IdsFollowQuals(path, a + "." + m, a + "." + f);
    IdsFollowQuals(path, a + "." + m, b + "." + f);
  }

  lemma IdsFollowQuals(path: string, q: string, r: string)
    ensures q != r ==> MakeId(path, q) != MakeId(path, r)
  {
    assert MakeId(path, q)[|path| + 2..] == q && MakeId(path, r)[|path| + 2..] == r;
  }

  lemma NotAnId(nodes: Nodes, f: string)
    requires WellNamed(nodes) && ':' !in f
    ensures f !in nodes.vals
  {
    forall i | i in nodes.vals
      ensures ':' in i
    {
      var n := nodes.vals[i];
      assert MakeId(n.file, n.qualname)[|n.file|] == ':';
    }
  }

  lemma MethodIsFiled(path: string, a: string, b: string, m: string, f: string, n: Node, isName: string -> bool)
    requires Lexical(isName) && IsPython(path) && isName(a) && isName(b) && isName(m) && isName(f)
    requires a != b && m != f && n in NodesIn(TwoClasses(a, b, m, f), path, [])
    ensures var nodes := AllNodes([Source(path, Some(TwoClasses(a, b, m, f)))]);
      n.id in nodes.vals && nodes.vals[n.id] == n
  {
    TreeIsNamed(a, b, m, f, isName);
    QualsDiffer(path, a, b, m, f, isName);
    Filed(Source(path, Some(TwoClasses(a, b, m, f))), n, isName);
  }

  /** The call on `self` is unique. */
  lemma SelfCallIsUnique(path: string, a: string, b: string, m: string, f: string, isName: string -> bool)
    requires Lexical(isName) && IsPython(path) && ColonFree(path) && isName(a) && isName(b) && isName(m) && isName(f)
    requires a != b && m != f
    ensures Asked([Source(path, Some(TwoClasses(a, b, m, f)))], FileCall(path, MethodOf(path, a, m, 2).id, f, true))
         == [Edge(MethodOf(path, a, m, 2).id, MethodOf(path, a, f, 5).id, Extracted)]
  {
    var s := Source(path, Some(TwoClasses(a, b, m, f)));
    var af := MethodOf(path, a, f, 5);
    TreeNodes(path, a, b, m, f);
    MethodIsFiled(path, a, b, m, f, af, isName);
    MethodIs(path, a, m, 2);
    MethodIs(path, a, f, 5);
    ClassOfCaller(path, a, m);
    OnlyEdge([s], FileCall(path, MethodOf(path, a, m, 2).id, f, true), a, af);
  }

  lemma ClassOfCaller(path: string, a: string, m: string)
    requires ColonFree(path) && '.' !in m
    ensures BeforeLastDot(AfterSep(MakeId(path, a + "." + m))) == Some(a)
  {
    AfterSepOfId(path, a + "." + m);
    LastDotAt(a, m);
  }

  lemma OnlyEdge(files: seq<Source>, c: FileCall, a: string, to: Node)
    requires c.isSelf && BeforeLastDot(AfterSep(c.caller)) == Some(a)
    requires to.id in AllNodes(files).vals && AllNodes(files).vals[to.id] == to
    requires to.file == c.file && to.kind == Method && to.qualname == a + "." + c.name
    ensures Asked(files, c) == [Edge(c.caller, to.id, Extracted)]
  {
    var e := StrayEdge(files, c, a, to);
    CollectedFacts(files);
    EdgesForFacts(AllNodes(files), c, e);
  }

  /**
    In every such file the call on `self` resolves to one method and its pair is linked, but the
    edge is not the trusted one: the bare call came first.
   */
  lemma UniqueCallLosesTrust(path: string, a: string, b: string, m: string, f: string, isName: string -> bool)
    requires Lexical(isName) && IsPython(path) && ColonFree(path) && isName(a) && isName(b) && isName(m) && isName(f)
    requires a != b && a != f && b != f && m != f
    ensures var s, e := Source(path, Some(TwoClasses(a, b, m, f))),
                        Edge(MethodOf(path, a, m, 2).id, MethodOf(path, a, f, 5).id, Extracted);
      && (exists c :: c in AllCalls([s]) && Asked([s], c) == [e])
      && HasPair(AllEdges([s]), e.src, e.dst) && e !in AllEdges([s])
  {
    var s := Source(path, Some(TwoClasses(a, b, m, f)));
    var id, to := MethodOf(path, a, m, 2).id, MethodOf(path, a, f, 5).id;
    var e, asked := Edge(id, to, Extracted), Edge(id, to, Ambiguous);
    TreeCalls(path, a, b, m, f);
    BareNameIsAmbiguous(path, a, b, m, f, isName);
    SelfCallIsUnique(path, a, b, m, f, isName);
    CollectedFacts([s]);
    var calls := AllCalls([s]);
    assert Asked([s], calls[1]) == [e] && calls[1] in calls;
    assert FirstAsks(Asks(AllNodes([s]), calls), 0, asked);
    UniqueCallHasItsEdge(AllNodes([s]), calls, 1, e, 0, asked);
  }
}
