/** rca_agent/graph.py, `_FileVisitor`: what a file defines and calls, read off the way down to each place. */
module SourceTrees {
  import opened Basics
  import opened CodeGraph
  import opened GraphBuilder
  import opened GraphLinker
  import opened SelfCalls

  /** From a tree down to one of its places, child by child. */
  ghost predicate Way(w: seq<Ast>) {
    w != [] && forall i :: 0 < i < |w| ==> w[i] in w[i - 1].children
  }

  /** The names of the classes on the way, each with its dot. */
  function ClassPrefix(w: seq<Ast>): string {
    if w == [] then ""
    else
      var last := w[|w| - 1];
      ClassPrefix(w[..|w| - 1]) + if last.ClassDef? then last.name + "." else ""
  }

  function QualAt(w: seq<Ast>): string
    requires w != [] && (w[|w| - 1].ClassDef? || w[|w| - 1].FuncDef?)
  {
    ClassPrefix(w[..|w| - 1]) + w[|w| - 1].name
  }

  /** The definition at the end of the way is recorded as `n`. */
  ghost predicate DefinedAt(n: Node, file: string, w: seq<Ast>) {
    && Way(w) && (w[|w| - 1].ClassDef? || w[|w| - 1].FuncDef?)
    && n.file == file && n.name == w[|w| - 1].name && n.line == w[|w| - 1].line
    && n.qualname == QualAt(w) && n.id == file + "::" + QualAt(w)
    && n.kind == if w[|w| - 1].ClassDef? then Class
                 else if exists i :: 0 <= i < |w| - 1 && w[i].ClassDef? then Method
                 else Function
  }

  /** The last function among `above` is the one with this id. */
  ghost predicate MakerIs(caller: Option<Id>, file: string, above: seq<Ast>) {
    match caller
    case None => forall k :: 0 <= k < |above| ==> !above[k].FuncDef?
    case Some(id) => exists k :: MadeBy(id, file, above, k)
  }

  ghost predicate MadeBy(id: Id, file: string, above: seq<Ast>, k: int) {
    && 0 <= k < |above| && above[k].FuncDef? && id == file + "::" + QualAt(above[..k + 1])
    && forall j :: k < j < |above| ==> !above[j].FuncDef?
  }

  /** The call at the end of the way is recorded as `c`. */
  ghost predicate CalledAt(c: RawCall, file: string, w: seq<Ast>) {
    && Way(w) && w[|w| - 1].Call? && MakerIs(c.caller, file, w[..|w| - 1])
    && match w[|w| - 1].callee {
         case ByName(id) => c.name == id && !c.isSelf
         case ByAttr(attr, onSelf) => c.name == attr && c.isSelf == onSelf
         case Computed => false
       }
  }

  // --- the frames a way passes ---------------------------------------------------------------------

  function FramesOn(w: seq<Ast>): seq<Frame> {
    if w == [] then [] else Below(w[|w| - 1], FramesOn(w[..|w| - 1]))
  }

  lemma ClassesBelow(w: seq<Ast>)
    requires w != []
    ensures var last := w[|w| - 1];
      ClassesOf(FramesOn(w)) == ClassesOf(FramesOn(w[..|w| - 1])) + if last.ClassDef? then [last.name] else []
  {
    var chain, last := FramesOn(w[..|w| - 1]), w[|w| - 1];
    if last.FuncDef? || last.ClassDef? { assert FramesOn(w)[..|chain|] == chain; }
  }

  lemma {:induction false} DottedPrefix(w: seq<Ast>, name: string)
    ensures Dotted(ClassesOf(FramesOn(w)), name) == ClassPrefix(w) + name
    decreases w
  {
    if w != [] {
      var init, last := w[..|w| - 1], w[|w| - 1];
      var classes := ClassesOf(FramesOn(init));
      ClassesBelow(w);
      if last.ClassDef? {
        DottedPrefix(init, last.name);
        DottedAppends(classes, last.name, [], name);
        assert classes + [last.name] + [] == classes + [last.name];
      } else {
        DottedPrefix(init, name);
        assert classes + [] == classes;
      }
    }
  }

  lemma {:induction false} ClassAbove(w: seq<Ast>)
    ensures ClassesOf(FramesOn(w)) != [] <==> exists i :: 0 <= i < |w| && w[i].ClassDef?
    decreases w
  {
    if w != [] {
      var init, last := w[..|w| - 1], w[|w| - 1];
      ClassAbove(init);
      ClassesBelow(w);
      if i :| 0 <= i < |init| && init[i].ClassDef? { assert w[i].ClassDef?; }
      if i :| 0 <= i < |w| && w[i].ClassDef? { assert i < |init| ==> init[i].ClassDef?; }
    }
  }

  lemma {:induction false} MakerAbove(file: string, above: seq<Ast>, caller: Option<Id>)
    ensures Enclosing(file, FramesOn(above)) == caller <==> MakerIs(caller, file, above)
    decreases above
  {
    if above != [] {
      var n := |above| - 1;
      var init, last := above[..n], above[n];
      MakerAbove(file, init, caller);
      EnclosingStep(file, above);
      if last.FuncDef? {
        LastIsMaker(file, above, caller);
      } else {
        SkipsTree(file, above, caller);
      }
    }
  }

  lemma EnclosingStep(file: string, above: seq<Ast>)
    requires above != []
    ensures var last, init := above[|above| - 1], FramesOn(above[..|above| - 1]);
      Enclosing(file, FramesOn(above)) == if last.FuncDef? then Some(MakeId(file, QualIn(init, last.name)))
                                          else Enclosing(file, init)
  {
    var last, init := above[|above| - 1], FramesOn(above[..|above| - 1]);
    if last.FuncDef? || last.ClassDef? { assert FramesOn(above)[..|init|] == init; }
  }

  lemma LastIsMaker(file: string, above: seq<Ast>, caller: Option<Id>)
    requires above != [] && above[|above| - 1].FuncDef?
    ensures var last, init := above[|above| - 1], FramesOn(above[..|above| - 1]);
      Some(MakeId(file, QualIn(init, last.name))) == caller <==> MakerIs(caller, file, above)
  {
    hide FramesOn, ClassesOf, Dotted, ClassPrefix;
    var n := |above| - 1;
    DottedPrefix(above[..n], above[n].name);
    assert above[..n + 1] == above;
    if caller.Some? {
      assert MakerIs(caller, file, above) <==> MadeBy(caller.value, file, above, n);
    }
  }

  /** Only functions count. */
  lemma {:induction false} SkipsTree(file: string, above: seq<Ast>, caller: Option<Id>)
    requires above != [] && !above[|above| - 1].FuncDef?
    ensures MakerIs(caller, file, above) <==> MakerIs(caller, file, above[..|above| - 1])
  {
    var n := |above| - 1;
    var init := above[..n];
    if caller.Some? {
      forall k
        ensures MadeBy(caller.value, file, above, k) <==> MadeBy(caller.value, file, init, k)
      {
        if 0 <= k < n { assert above[..k + 1] == init[..k + 1]; }
      }
    }
  }

  // --- down the tree -------------------------------------------------------------------------------

  lemma {:induction false} DefinedInSomeChild(ts: seq<Ast>, file: string, chain: seq<Frame>, n: Node)
    ensures n in NodesInAll(ts, file, chain) <==> exists t :: t in ts && n in NodesIn(t, file, chain)
    decreases ts
  {
    hide NodesIn;
    if ts != [] {
      var init, last := ts[..|ts| - 1], ts[|ts| - 1];
      InitAndLast(ts);
      DefinedInSomeChild(init, file, chain, n);
      assert n in NodesInAll(ts, file, chain) <==> n in NodesInAll(init, file, chain) || n in NodesIn(last, file, chain);
      if t :| t in init && n in NodesIn(t, file, chain) { assert t in ts; }
    }
  }

  lemma {:induction false} CalledInSomeChild(ts: seq<Ast>, file: string, chain: seq<Frame>, c: RawCall)
    ensures c in CallsInAll(ts, file, chain) <==> exists t :: t in ts && c in CallsIn(t, file, chain)
    decreases ts
  {
    hide CallsIn;
    if ts != [] {
      var init, last := ts[..|ts| - 1], ts[|ts| - 1];
      InitAndLast(ts);
      CalledInSomeChild(init, file, chain, c);
      assert c in CallsInAll(ts, file, chain) <==> c in CallsInAll(init, file, chain) || c in CallsIn(last, file, chain);
      if t :| t in init && c in CallsIn(t, file, chain) { assert t in ts; }
    }
  }

  /** A way from `t`, which itself has `above` over it, to a definition recorded as `n`. */
  ghost predicate DefinesBelow(above: seq<Ast>, t: Ast, file: string, n: Node, v: seq<Ast>) {
    Way(v) && v[0] == t && n in HeadNodes(v[|v| - 1], file, FramesOn(above + v[..|v| - 1]))
  }

  ghost predicate CallsBelow(above: seq<Ast>, t: Ast, file: string, c: RawCall, v: seq<Ast>) {
    Way(v) && v[0] == t && c in HeadCalls(v[|v| - 1], file, FramesOn(above + v[..|v| - 1]))
  }

  lemma OneDown(above: seq<Ast>, t: Ast, u: Ast, file: string, n: Node, c: RawCall, v: seq<Ast>)
    requires v != [] && v[0] == u && u in t.children
    ensures DefinesBelow(above + [t], u, file, n, v) <==> DefinesBelow(above, t, file, n, [t] + v)
    ensures CallsBelow(above + [t], u, file, c, v) <==> CallsBelow(above, t, file, c, [t] + v)
  {
    var w := [t] + v;
    assert w[|w| - 1] == v[|v| - 1];
    assert above + w[..|w| - 1] == above + [t] + v[..|v| - 1];
    if Way(w) {
      forall i | 0 < i < |v|
        ensures v[i] in v[i - 1].children
      {
        assert w[i + 1] in w[i + 1 - 1].children;
      }
    }
  }

  lemma Here(above: seq<Ast>, t: Ast, file: string, n: Node, c: RawCall, v: seq<Ast>)
    requires |v| == 1
    ensures DefinesBelow(above, t, file, n, v) <==> v[0] == t && n in HeadNodes(t, file, FramesOn(above))
    ensures CallsBelow(above, t, file, c, v) <==> v[0] == t && c in HeadCalls(t, file, FramesOn(above))
  {
    assert above + v[..0] == above;
  }

  lemma FramesBelow(above: seq<Ast>, t: Ast)
    ensures FramesOn(above + [t]) == Below(t, FramesOn(above))
  {
    assert (above + [t])[..|above|] == above;
  }

  lemma {:induction false} ReachedByWays(above: seq<Ast>, t: Ast, file: string, n: Node, c: RawCall)
    ensures n in NodesIn(t, file, FramesOn(above)) <==> exists v :: DefinesBelow(above, t, file, n, v)
    ensures c in CallsIn(t, file, FramesOn(above)) <==> exists v :: CallsBelow(above, t, file, c, v)
    decreases t
  {
    hide HeadNodes, HeadCalls, FramesOn;
    FramesBelow(above, t);
    DefinedInSomeChild(t.children, file, FramesOn(above + [t]), n);
    CalledInSomeChild(t.children, file, FramesOn(above + [t]), c);
    Here(above, t, file, n, c, [t]);
    forall u | u in t.children
      ensures n in NodesIn(u, file, FramesOn(above + [t])) ==> exists v :: DefinesBelow(above, t, file, n, v)
      ensures c in CallsIn(u, file, FramesOn(above + [t])) ==> exists v :: CallsBelow(above, t, file, c, v)
    {
      ReachedByWays(above + [t], u, file, n, c);
      if v :| DefinesBelow(above + [t], u, file, n, v) { OneDown(above, t, u, file, n, c, v); }
      if v :| CallsBelow(above + [t], u, file, c, v) { OneDown(above, t, u, file, n, c, v); }
    }
    if v :| DefinesBelow(above, t, file, n, v) { FromTheTop(above, t, file, n, c, v); }
    if v :| CallsBelow(above, t, file, c, v) { FromTheTop(above, t, file, n, c, v); }
  }

  lemma {:induction false} FromTheTop(above: seq<Ast>, t: Ast, file: string, n: Node, c: RawCall, v: seq<Ast>)
    requires Way(v) && v[0] == t
    ensures DefinesBelow(above, t, file, n, v) ==> n in NodesIn(t, file, FramesOn(above))
    ensures CallsBelow(above, t, file, c, v) ==> c in CallsIn(t, file, FramesOn(above))
    decreases t, 0
  {
    hide HeadNodes, HeadCalls, FramesOn;
    if |v| == 1 {
      Here(above, t, file, n, c, v);
    } else {
      var u := v[1];
      assert u in t.children && Way(v[1..]) && v == [t] + v[1..];
      FramesBelow(above, t);
      DefinedInSomeChild(t.children, file, FramesOn(above + [t]), n);
    CalledInSomeChild(t.children, file, FramesOn(above + [t]), c);
      OneDown(above, t, u, file, n, c, v[1..]);
      FromTheTop(above + [t], u, file, n, c, v[1..]);
    }
  }

  // --- the visitor's answers -----------------------------------------------------------------------

  lemma HeadDefines(file: string, v: seq<Ast>, n: Node)
    requires Way(v)
    ensures DefinesBelow([], v[0], file, n, v) <==> DefinedAt(n, file, v)
  {
    var above, last := v[..|v| - 1], v[|v| - 1];
    assert [] + above == above;
    if last.ClassDef? || last.FuncDef? { NodeAt(file, v, n); }
  }

  lemma NodeAt(file: string, v: seq<Ast>, n: Node)
    requires Way(v) && (v[|v| - 1].ClassDef? || v[|v| - 1].FuncDef?)
    ensures var last := v[|v| - 1];
      n == NodeFor(file, FramesOn(v[..|v| - 1]), last.name, last.ClassDef?, last.line) <==> DefinedAt(n, file, v)
  {
    hide FramesOn, ClassesOf, ClassPrefix, Dotted;
    var above, last := v[..|v| - 1], v[|v| - 1];
    DottedPrefix(above, last.name);
    ClassAbove(above);
    assert QualIn(FramesOn(above), last.name) == QualAt(v);
    assert (exists i :: 0 <= i < |above| && above[i].ClassDef?) <==> exists i :: 0 <= i < |v| - 1 && v[i].ClassDef? by {
      assert forall i :: 0 <= i < |above| ==> above[i] == v[i];
    }
  }

  /** The definitions the visitor records for a file: one for each class and function of its tree, and no more. */
  lemma DefinitionsAre(t: Ast, file: string, n: Node)
    ensures n in NodesIn(t, file, []) <==> exists w :: DefinedAt(n, file, w) && w[0] == t
  {
    var c := RawCall(None, "", false);
    ReachedByWays([], t, file, n, c);
    if v :| DefinesBelow([], t, file, n, v) { HeadDefines(file, v, n); }
    if w :| DefinedAt(n, file, w) && w[0] == t { HeadDefines(file, w, n); }
  }

  lemma HeadCalled(file: string, v: seq<Ast>, c: RawCall)
    requires Way(v)
    ensures CallsBelow([], v[0], file, c, v) <==> CalledAt(c, file, v)
  {
    hide FramesOn, Enclosing, MakerIs;
    var above := v[..|v| - 1];
    assert [] + above == above;
    MakerAbove(file, above, c.caller);
  }

  /** The calls it records: by name or on an attribute, each under the function it stands in. */
  lemma CallsAre(t: Ast, file: string, c: RawCall)
    ensures c in CallsIn(t, file, []) <==> exists w :: CalledAt(c, file, w) && w[0] == t
  {
    var n := Node("", "", "", Class, "", 0);
    ReachedByWays([], t, file, n, c);
    if v :| CallsBelow([], t, file, c, v) { HeadCalled(file, v, c); }
    if w :| CalledAt(c, file, w) && w[0] == t { HeadCalled(file, w, c); }
  }

  // --- all files -----------------------------------------------------------------------------------

  /** A Python file that parses. */
  ghost predicate Read(s: Source) {
    s.tree.Some? && exists stem: string :: s.path == stem + ".py"
  }

  lemma ReadIsParsed(s: Source)
    ensures Read(s) <==> Parsed(s)
  {
    if Parsed(s) { assert s.path == s.path[..|s.path| - 3] + ".py"; }
    if stem: string :| s.path == stem + ".py" { assert s.path[|s.path| - 3..] == ".py"; }
  }

  lemma {:induction false} CallsCollected(files: seq<Source>, f: FileCall)
    ensures f in AllCalls(files) <==>
      exists s :: s in files && Parsed(s) && f in InFile(s.path, CallsIn(s.tree.value, s.path, []))
    decreases files
  {
    if files != [] {
      InitAndLast(files);
      CallsCollected(files[..|files| - 1], f);
    }
  }

  /** The calls collected from all files: those made inside a function of a Python file that parses. */
  lemma AllCallsAre(files: seq<Source>, f: FileCall)
    ensures f in AllCalls(files) <==>
      exists s, w :: s in files && Read(s) && s.path == f.file
                     && CalledAt(RawCall(Some(f.caller), f.name, f.isSelf), s.path, w) && w[0] == s.tree.value
  {
    var c := RawCall(Some(f.caller), f.name, f.isSelf);
    CallsCollected(files, f);
    if s :| s in files && Parsed(s) && f in InFile(s.path, CallsIn(s.tree.value, s.path, [])) {
      ReadIsParsed(s);
      InFileAre(s.path, CallsIn(s.tree.value, s.path, []), f);
      CallsAre(s.tree.value, s.path, c);
    }
    if s, w :| s in files && Read(s) && s.path == f.file && CalledAt(c, s.path, w) && w[0] == s.tree.value {
      ReadIsParsed(s);
      CallsAre(s.tree.value, s.path, c);
      InFileAre(s.path, CallsIn(s.tree.value, s.path, []), f);
    }
  }

  lemma {:induction false} NodesCollected(files: seq<Source>, n: Node)
    ensures (exists s :: s in files && Parsed(s) && n in FileNodes(s)) ==> n.id in AllNodes(files).vals
    decreases files
  {
    if files != [] {
      var init, last := files[..|files| - 1], files[|files| - 1];
      InitAndLast(files);
      NodesCollected(init, n);
      if Parsed(last) {
        var own := PutAll(EmptyDict(), FileNodes(last));
        NodesNamed(last.tree.value, last.path, []);
        PutAllFacts(FileNodes(last));
        UpdateKeys(AllNodes(init), own, |own.keys|);
        assert own.keys[..|own.keys|] == own.keys;
      }
    }
  }

  /** The ids of the graph are those of all definitions in all Python files that parse. */
  lemma AllNodesAre(files: seq<Source>, id: Id)
    ensures id in AllNodes(files).vals <==>
      exists s, w, n :: s in files && Read(s) && DefinedAt(n, s.path, w) && w[0] == s.tree.value && n.id == id
  {
    if id in AllNodes(files).vals {
      CollectedFacts(files);
      var s := NodeHasSource(files, id);
      ReadIsParsed(s);
      DefinitionsAre(s.tree.value, s.path, AllNodes(files).vals[id]);
    }
    if s, w, n :| s in files && Read(s) && DefinedAt(n, s.path, w) && w[0] == s.tree.value && n.id == id {
      ReadIsParsed(s);
      DefinitionsAre(s.tree.value, s.path, n);
      NodesCollected(files, n);
    }
  }

  /** Definition `j` of `ns` is the last one of its id. */
  ghost predicate LastOfId(ns: seq<Node>, j: int) {
    0 <= j < |ns| && forall k :: j < k < |ns| ==> ns[k].id != ns[j].id
  }

  lemma {:induction false} LastPutWins(ns: seq<Node>, j: int)
    requires LastOfId(ns, j)
    ensures ns[j].id in PutAll(EmptyDict(), ns).vals && PutAll(EmptyDict(), ns).vals[ns[j].id] == ns[j]
    decreases ns
  {
    if j < |ns| - 1 { LastPutWins(ns[..|ns| - 1], j); }
  }

  lemma {:induction false} UpdateValue(d: Nodes, e: Nodes, k: nat, id: Id)
    requires k <= |e.keys| && forall i :: i in e.keys ==> i in e.vals
    ensures id in e.keys[..k] ==> id in UpdateWith(d, e, k).vals && UpdateWith(d, e, k).vals[id] == e.vals[id]
    ensures id !in e.keys[..k] && id in d.vals ==>
      id in UpdateWith(d, e, k).vals && UpdateWith(d, e, k).vals[id] == d.vals[id]
    decreases k
  {
    if k > 0 {
      UpdateValue(d, e, k - 1, id);
      assert e.keys[..k] == e.keys[..k - 1] + [e.keys[k - 1]];
    }
  }

  /** Of several definitions with one id, the one read last is kept. */
  lemma {:induction false} LastDefinitionWins(files: seq<Source>, i: nat, j: int)
    requires i < |files| && Parsed(files[i]) && LastOfId(FileNodes(files[i]), j)
    requires forall k :: i < k < |files| && Parsed(files[k]) ==> !Defines(FileNodes(files[k]), FileNodes(files[i])[j].id)
    ensures var n := FileNodes(files[i])[j]; n.id in AllNodes(files).vals && AllNodes(files).vals[n.id] == n
    decreases files
  {
    hide PutAll, UpdateWith;
    var init, last, n := files[..|files| - 1], files[|files| - 1], FileNodes(files[i])[j];
    if i < |init| { LastDefinitionWins(init, i, j); }
    if Parsed(last) {
      var own := PutAll(EmptyDict(), FileNodes(last));
      OneFileLater(AllNodes(init), last, n.id);
      if i == |init| {
        LastPutWins(FileNodes(last), j);
      } else {
        assert !Defines(FileNodes(files[|init|]), n.id);
      }
    }
  }

  /** The next file's own definition replaces what was there; what it does not define stays. */
  lemma OneFileLater(nodes: Nodes, s: Source, id: Id)
    requires Parsed(s)
    ensures var own := PutAll(EmptyDict(), FileNodes(s));
      && own.Valid() && (id in own.vals ==> Defines(FileNodes(s), id))
      && var after := UpdateWith(nodes, own, |own.keys|);
         && (id in own.vals ==> id in after.vals && after.vals[id] == own.vals[id])
         && (id !in own.vals && id in nodes.vals ==> id in after.vals && after.vals[id] == nodes.vals[id])
  {
    hide UpdateWith;
    var own := PutAll(EmptyDict(), FileNodes(s));
    NodesNamed(s.tree.value, s.path, []);
    PutAllFacts(FileNodes(s));
    UpdateValue(nodes, own, |own.keys|, id);
    assert own.keys[..|own.keys|] == own.keys;
    if id in own.vals { PutAllFrom(FileNodes(s), id); }
  }
}
