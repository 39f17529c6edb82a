/**
  rca_agent/graph.py, `build_graph_from_sources`: collect every file, resolve every call, and
  what the finished graph can be trusted for.
 */
module GraphLinker {
  import opened Basics
  import opened CodeGraph
  import opened GraphBuilder

  const FANOUT_CAP := 3

  // --- collecting the files ----------------------------------------------------------------

  /** A call made inside some function: the only kind that can become an edge. */
  datatype FileCall = FileCall(file: string, caller: Id, name: string, isSelf: bool)

  predicate IsPython(path: string) {
    |path| >= 3 && path[|path| - 3..] == ".py"
  }

  predicate Parsed(s: Source) {
    IsPython(s.path) && s.tree.Some?
  }

  function FileNodes(s: Source): seq<Node>
    requires s.tree.Some?
  {
    NodesIn(s.tree.value, s.path, [])
  }

  /** `d.update(e)` for the first `k` keys of `e`. */
  function UpdateWith(d: Nodes, e: Nodes, k: nat): Nodes
    requires k <= |e.keys| && forall i :: i in e.keys ==> i in e.vals
  {
    if k == 0 then d else UpdateWith(d, e, k - 1).Put(e.keys[k - 1], e.vals[e.keys[k - 1]])
  }

  /** Every node is filed under its id, and its id is its place. */
  ghost predicate WellNamed(nodes: Nodes) {
    ValidNodes(nodes) && forall i :: i in nodes.vals ==> i == MakeId(nodes.vals[i].file, nodes.vals[i].qualname)
  }

  ghost predicate NamedByPlace(ns: seq<Node>) {
    forall n :: n in ns ==> n.id == MakeId(n.file, n.qualname)
  }

  lemma PutKeepsNamed(nodes: Nodes, n: Node)
    requires WellNamed(nodes) && n.id == MakeId(n.file, n.qualname)
    ensures WellNamed(nodes.Put(n.id, n))
    ensures forall i :: i in nodes.Put(n.id, n).vals <==> i in nodes.vals || i == n.id
  {
    nodes.PutKeepsValid(n.id, n);
  }

  lemma {:induction false} PutAllFacts(ns: seq<Node>)
    requires NamedByPlace(ns)
    ensures WellNamed(PutAll(EmptyDict(), ns))
    ensures forall n :: n in ns ==> n.id in PutAll(EmptyDict(), ns).vals
    decreases ns
  {
    if ns != [] {
      var init, last := ns[..|ns| - 1], ns[|ns| - 1];
      assert ns == init + [last];
      PutAllFacts(init);
      PutKeepsNamed(PutAll(EmptyDict(), init), last);
    }
  }

  lemma {:induction false} UpdateNamed(d: Nodes, e: Nodes, k: nat)
    requires WellNamed(d) && WellNamed(e) && k <= |e.keys|
    ensures WellNamed(UpdateWith(d, e, k))
    decreases k
  {
    if k > 0 {
      UpdateNamed(d, e, k - 1);
      PutKeepsNamed(UpdateWith(d, e, k - 1), e.vals[e.keys[k - 1]]);
    }
  }

  lemma {:induction false} UpdateKeys(d: Nodes, e: Nodes, k: nat)
    requires k <= |e.keys| && forall i :: i in e.keys ==> i in e.vals
    ensures forall i :: i in UpdateWith(d, e, k).vals <==> i in d.vals || i in e.keys[..k]
    decreases k
  {
    if k > 0 {
      UpdateKeys(d, e, k - 1);
      assert e.keys[..k] == e.keys[..k - 1] + [e.keys[k - 1]];
    }
  }

  lemma {:induction false} NodesNamed(t: Ast, file: string, chain: seq<Frame>)
    ensures NamedByPlace(NodesIn(t, file, chain))
    decreases t, 1
  {
    NodesNamedAll(t.children, file, Below(t, chain));
  }

  lemma {:induction false} NodesNamedAll(ts: seq<Ast>, file: string, chain: seq<Frame>)
    ensures NamedByPlace(NodesInAll(ts, file, chain))
    decreases ts, 0
  {
    if ts != [] {
      NodesNamedAll(ts[..|ts| - 1], file, chain);
      NodesNamed(ts[|ts| - 1], file, chain);
    }
  }

  ghost predicate Defines(ns: seq<Node>, id: Id) {
    exists n :: n in ns && n.id == id
  }

  /** A caller is a function defined in the tree, or the one the tree sits in. */
  ghost predicate CallersKnown(cs: seq<RawCall>, ns: seq<Node>, around: Option<Id>) {
    forall c :: c in cs && c.caller.Some? ==> c.caller == around || Defines(ns, c.caller.value)
  }

  lemma {:induction false} CallersDefined(t: Ast, file: string, chain: seq<Frame>)
    ensures CallersKnown(CallsIn(t, file, chain), NodesIn(t, file, chain), Enclosing(file, chain))
    decreases t, 1
  {
    var inner, ns := NodesInAll(t.children, file, Below(t, chain)), NodesIn(t, file, chain);
    CallersDefinedAll(t.children, file, Below(t, chain));
    EnclosingBelow(t, file, chain);
    assert forall n :: n in inner ==> n in ns;
    if t.FuncDef? { assert NodeFor(file, chain, t.name, false, t.line) in ns; }
  }

  lemma EnclosingBelow(t: Ast, file: string, chain: seq<Frame>)
    ensures Enclosing(file, Below(t, chain)) ==
      if t.FuncDef? then Some(NodeFor(file, chain, t.name, false, t.line).id) else Enclosing(file, chain)
  {
    if t.FuncDef? || t.ClassDef? { assert Below(t, chain)[..|chain|] == chain; }
  }

  lemma {:induction false} CallersDefinedAll(ts: seq<Ast>, file: string, chain: seq<Frame>)
    ensures CallersKnown(CallsInAll(ts, file, chain), NodesInAll(ts, file, chain), Enclosing(file, chain))
    decreases ts, 0
  {
    if ts != [] {
      CallersDefinedAll(ts[..|ts| - 1], file, chain);
      CallersDefined(ts[|ts| - 1], file, chain);
    }
  }

  function InFile(file: string, cs: seq<RawCall>): seq<FileCall> {
    if cs == [] then []
    else
      var c := cs[|cs| - 1];
      InFile(file, cs[..|cs| - 1])
      + if c.caller.Some? then [FileCall(file, c.caller.value, c.name, c.isSelf)] else []
  }

  lemma {:induction false} InFileAre(file: string, cs: seq<RawCall>, f: FileCall)
    ensures f in InFile(file, cs) <==>
      f.file == file && RawCall(Some(f.caller), f.name, f.isSelf) in cs
    decreases cs
  {
    if cs != [] {
      assert cs == cs[..|cs| - 1] + [cs[|cs| - 1]];
      InFileAre(file, cs[..|cs| - 1], f);
    }
  }

  function AllNodes(files: seq<Source>): Nodes {
    if files == [] then EmptyDict()
    else
      var before, s := AllNodes(files[..|files| - 1]), files[|files| - 1];
      if !Parsed(s) then before
      else
        var own := PutAll(EmptyDict(), FileNodes(s));
        NodesNamed(s.tree.value, s.path, []);
        PutAllFacts(FileNodes(s));
        UpdateWith(before, own, |own.keys|)
  }

  function AllCalls(files: seq<Source>): seq<FileCall> {
    if files == [] then []
    else
      var before, s := AllCalls(files[..|files| - 1]), files[|files| - 1];
      if Parsed(s) then before + InFile(s.path, CallsIn(s.tree.value, s.path, [])) else before
  }

  ghost predicate CallersAreNodes(calls: seq<FileCall>, nodes: Nodes) {
    forall c :: c in calls ==> c.caller in nodes.vals
  }

  lemma {:induction false} CollectedFacts(files: seq<Source>)
    ensures WellNamed(AllNodes(files)) && CallersAreNodes(AllCalls(files), AllNodes(files))
    decreases files
  {
    if files != [] {
      var init, s := files[..|files| - 1], files[|files| - 1];
      CollectedFacts(init);
      if Parsed(s) { OneMoreFile(AllNodes(init), AllCalls(init), s); }
    }
  }

  lemma OneMoreFile(nodes: Nodes, calls: seq<FileCall>, s: Source)
    requires s.tree.Some? && WellNamed(nodes) && CallersAreNodes(calls, nodes)
    ensures var own := PutAll(EmptyDict(), FileNodes(s));
      WellNamed(own) && WellNamed(UpdateWith(nodes, own, |own.keys|))
      && CallersAreNodes(calls + InFile(s.path, CallsIn(s.tree.value, s.path, [])),
                         UpdateWith(nodes, own, |own.keys|))
  {
    var own := PutAll(EmptyDict(), FileNodes(s));
    NodesNamed(s.tree.value, s.path, []);
    PutAllFacts(FileNodes(s));
    UpdateNamed(nodes, own, |own.keys|);
    UpdateKeys(nodes, own, |own.keys|);
    assert own.keys[..|own.keys|] == own.keys;
    CallersDefined(s.tree.value, s.path, []);
    forall f | f in InFile(s.path, CallsIn(s.tree.value, s.path, []))
      ensures f.caller in own.vals
    {
      InFileAre(s.path, CallsIn(s.tree.value, s.path, []), f);
    }
  }

  // --- resolving one call --------------------------------------------------------------------

  /** `s.split("::", 1)[1]`: what follows the first "::". */
  function AfterSep(s: string): string {
    if |s| < 2 then "" else if s[0] == ':' && s[1] == ':' then s[2..] else AfterSep(s[1..])
  }

  /** `s.rsplit(".", 1)[0]` when there is a dot. */
  function BeforeLastDot(s: string): Option<string> {
    if s == "" then None
    else if s[|s| - 1] == '.' then Some(s[..|s| - 1])
    else BeforeLastDot(s[..|s| - 1])
  }

  function SelfCandidates(ids: seq<Id>, vals: map<Id, Node>, file: string, cls: Option<string>, name: string): seq<Id>
    requires forall i :: i in ids ==> i in vals
  {
    if ids == [] then []
    else
      var n := vals[ids[|ids| - 1]];
      SelfCandidates(ids[..|ids| - 1], vals, file, cls, name)
      + if n.file == file && n.kind == Method && cls.Some? && n.qualname == cls.value + "." + name
        then [ids[|ids| - 1]] else []
  }

  function Without(ids: seq<Id>, x: Id): seq<Id> {
    if ids == [] then []
    else Without(ids[..|ids| - 1], x) + if ids[|ids| - 1] == x then [] else [ids[|ids| - 1]]
  }

  /** The callees a call resolves to, before the fan-out cap. */
  function Callees(nodes: Nodes, c: FileCall): seq<Id>
    requires nodes.Valid()
  {
    if c.isSelf then SelfCandidates(nodes.keys, nodes.vals, c.file, BeforeLastDot(AfterSep(c.caller)), c.name)
    else Without(ResolveIds(nodes, c.name), c.caller)
  }

  function Labelled(caller: Id, ids: seq<Id>, p: Provenance): seq<Edge> {
    seq(|ids|, i requires 0 <= i < |ids| => Edge(caller, ids[i], p))
  }

  /** The edges one call asks for. */
  function EdgesFor(nodes: Nodes, c: FileCall): seq<Edge>
    requires nodes.Valid()
  {
    var ids := Callees(nodes, c);
    if c.isSelf then Labelled(c.caller, ids, if |ids| == 1 then Extracted else Inferred)
    else if |ids| == 1 then Labelled(c.caller, ids, Extracted)
    else if 2 <= |ids| <= FANOUT_CAP then Labelled(c.caller, ids, Ambiguous)
    else []
  }

  lemma {:induction false} SelfCandidatesAre(ids: seq<Id>, vals: map<Id, Node>, file: string,
        cls: Option<string>, name: string)
    requires forall i :: i in ids ==> i in vals
    requires forall i, j :: 0 <= i < j < |ids| ==> ids[i] != ids[j]
    requires forall i :: i in ids ==> i == MakeId(vals[i].file, vals[i].qualname)
    ensures var r := SelfCandidates(ids, vals, file, cls, name);
      |r| <= 1
      && forall x :: x in r ==> x in ids && vals[x].file == file && vals[x].kind == Method && cls.Some?
                                && vals[x].qualname == cls.value + "." + name
    decreases ids
  {
    if ids != [] {
      var init, last := ids[..|ids| - 1], ids[|ids| - 1];
      assert ids == init + [last];
      assert last !in init;
      SelfCandidatesAre(init, vals, file, cls, name);
      var r := SelfCandidates(init, vals, file, cls, name);
      if r != [] { assert r[0] in init; }
    }
  }

  lemma {:induction false} WithoutAre(ids: seq<Id>, x: Id)
    ensures forall i :: i in Without(ids, x) <==> i in ids && i != x
    decreases ids
  {
    if ids != [] {
      var init, last := ids[..|ids| - 1], ids[|ids| - 1];
      assert ids == init + [last];
      WithoutAre(init, x);
    }
  }

  /** All that one call's edges can be: few, between nodes, never back to the caller by name. */
  lemma EdgesForFacts(nodes: Nodes, c: FileCall, e: Edge)
    requires WellNamed(nodes) && e in EdgesFor(nodes, c)
    ensures e.src == c.caller && e.dst in nodes.vals && |EdgesFor(nodes, c)| <= 3
    ensures e.provenance == if |EdgesFor(nodes, c)| == 1 then Extracted else Ambiguous
    ensures !c.isSelf ==> e.dst != c.caller
    ensures c.isSelf ==> |EdgesFor(nodes, c)| == 1 && nodes.vals[e.dst].file == c.file && nodes.vals[e.dst].kind == Method
    ensures c.isSelf ==> BeforeLastDot(AfterSep(c.caller)).Some?
    ensures c.isSelf ==>
      nodes.vals[e.dst].qualname == BeforeLastDot(AfterSep(c.caller)).value + "." + c.name
  {
    var ids := Callees(nodes, c);
    assert e.dst in ids;
    if c.isSelf {
      SelfCandidatesAre(nodes.keys, nodes.vals, c.file, BeforeLastDot(AfterSep(c.caller)), c.name);
    } else {
      WithoutAre(ResolveIds(nodes, c.name), c.caller);
      if c.name !in nodes.vals { ScanFinds(nodes.keys, nodes.vals, c.name, e.dst); }
    }
  }

  /** No "::" before the one an id is made with. */
  predicate ColonFree(file: string) {
    (forall i :: 0 <= i < |file| - 1 ==> !(file[i] == ':' && file[i + 1] == ':'))
    && (file == "" || file[|file| - 1] != ':')
  }

  lemma {:induction false} AfterSepOfId(file: string, qual: string)
    requires ColonFree(file)
    ensures AfterSep(MakeId(file, qual)) == qual
    decreases file
  {
    var s := MakeId(file, qual);
    if file != "" {
      assert s[1..] == MakeId(file[1..], qual);
      AfterSepOfId(file[1..], qual);
      assert s[0] == file[0];
    } else {
      assert s == "::" + qual;
    }
  }

  lemma {:induction false} AfterEarlierSep(file: string, qual: string)
    requires !ColonFree(file)
    ensures |AfterSep(MakeId(file, qual))| > |qual|
    decreases file
  {
    var s := MakeId(file, qual);
    assert s[0] == file[0] && s[1] == (file + "::")[1];
    if !(s[0] == ':' && s[1] == ':') {
      assert s[1..] == MakeId(file[1..], qual);
      assert !ColonFree(file[1..]) by {
        if i :| 0 <= i < |file| - 1 && file[i] == ':' && file[i + 1] == ':' {
          assert file[1..][i - 1] == ':' && file[1..][i - 1 + 1] == ':';
        }
      }
      AfterEarlierSep(file[1..], qual);
    }
  }

  /** The qualname comes back out of an id iff the path has no earlier "::". */
  lemma QualnameRecoveredIff(file: string)
    ensures (forall qual :: AfterSep(MakeId(file, qual)) == qual) <==> ColonFree(file)
  {
    if ColonFree(file) {
      forall qual
        ensures AfterSep(MakeId(file, qual)) == qual
      {
        AfterSepOfId(file, qual);
      }
    } else {
      AfterEarlierSep(file, "");
      assert AfterSep(MakeId(file, "")) != "";
    }
  }

  /** The last dot is where what follows has none. */
  lemma {:induction false} BeforeLastDotIs(s: string)
    ensures BeforeLastDot(s).None? ==> '.' !in s
    ensures BeforeLastDot(s).Some? ==>
      exists m: string :: '.' !in m && s == BeforeLastDot(s).value + "." + m
    decreases s
  {
    if s != "" && s[|s| - 1] != '.' {
      var init := s[..|s| - 1];
      BeforeLastDotIs(init);
      assert s == init + [s[|s| - 1]];
      if BeforeLastDot(init).Some? {
        var m: string :| '.' !in m && init == BeforeLastDot(init).value + "." + m;
        var m' := m + [s[|s| - 1]];
        assert '.' !in m' && s == BeforeLastDot(s).value + "." + m';
      }
    } else if s != "" {
      assert s == s[..|s| - 1] + "." + "";
    }
  }

  /** `src` and `dst` are in one file; `dst` is what `name` is called in the class `src` is a method of. */
  ghost predicate InOneClass(src: Node, dst: Node, name: string) {
    src.file == dst.file && exists cls: string, m: string ::
      '.' !in m && src.qualname == cls + "." + m && dst.qualname == cls + "." + name
  }

  /** A self call never leaves its class or its file (in a file whose path has no "::" and does not end in ':'). */
  lemma SelfCallStaysInClass(nodes: Nodes, c: FileCall, e: Edge)
    requires WellNamed(nodes) && c.isSelf && e in EdgesFor(nodes, c)
    requires c.caller in nodes.vals && nodes.vals[c.caller].file == c.file && ColonFree(c.file)
    ensures e.src in nodes.vals && e.dst in nodes.vals && InOneClass(nodes.vals[e.src], nodes.vals[e.dst], c.name)
  {
    EdgesForFacts(nodes, c, e);
    AfterSepOfId(c.file, nodes.vals[c.caller].qualname);
    BeforeLastDotIs(nodes.vals[c.caller].qualname);
  }

  // --- all calls ---------------------------------------------------------------------------

  predicate HasPair(edges: seq<Edge>, src: Id, dst: Id) {
    exists i :: 0 <= i < |edges| && edges[i].src == src && edges[i].dst == dst
  }

  /** Append the edges whose pair is new. */
  function AddNew(edges: seq<Edge>, more: seq<Edge>): seq<Edge> {
    if more == [] then edges
    else
      var r, e := AddNew(edges, more[..|more| - 1]), more[|more| - 1];
      if HasPair(r, e.src, e.dst) then r else r + [e]
  }

  /** What each call asks for, in turn. */
  function Asks(nodes: Nodes, calls: seq<FileCall>): (r: seq<seq<Edge>>)
    requires nodes.Valid()
    ensures |r| == |calls|
  {
    seq(|calls|, i requires 0 <= i < |calls| => EdgesFor(nodes, calls[i]))
  }

  function Merged(asks: seq<seq<Edge>>): seq<Edge> {
    if asks == [] then [] else AddNew(Merged(asks[..|asks| - 1]), asks[|asks| - 1])
  }

  function Linked(nodes: Nodes, calls: seq<FileCall>): seq<Edge>
    requires nodes.Valid()
  {
    Merged(Asks(nodes, calls))
  }

  ghost predicate PairsUnique(edges: seq<Edge>) {
    forall i, j :: 0 <= i < j < |edges| ==> edges[i].src != edges[j].src || edges[i].dst != edges[j].dst
  }

  lemma {:induction false} AddNewFacts(edges: seq<Edge>, more: seq<Edge>)
    requires PairsUnique(edges)
    ensures PairsUnique(AddNew(edges, more)) && edges <= AddNew(edges, more)
    ensures forall e :: e in AddNew(edges, more) && e !in edges ==> e in more && !HasPair(edges, e.src, e.dst)
    ensures forall e :: e in more ==> HasPair(AddNew(edges, more), e.src, e.dst)
    decreases more
  {
    if more != [] {
      var init, last := more[..|more| - 1], more[|more| - 1];
      AddNewFacts(edges, init);
      var r, r' := AddNew(edges, init), AddNew(edges, more);
      assert more == init + [last] && r <= r';
      if !HasPair(r, last.src, last.dst) { assert r'[|r|] == last; }
      forall e | e in more
        ensures HasPair(r', e.src, e.dst)
      {
      }
    }
  }

  /** Call number `j` asks for `e`, and no call before it asked for the same pair. */
  ghost predicate FirstAsks(asks: seq<seq<Edge>>, j: nat, e: Edge) {
    j < |asks| && e in asks[j] && forall i :: 0 <= i < j ==> !HasPair(asks[i], e.src, e.dst)
  }

  ghost predicate Answered(edges: seq<Edge>, asked: seq<Edge>) {
    forall e :: e in asked ==> HasPair(edges, e.src, e.dst)
  }

  lemma {:induction false} MergedUnique(asks: seq<seq<Edge>>)
    ensures PairsUnique(Merged(asks))
    decreases asks
  {
    if asks != [] {
      MergedUnique(asks[..|asks| - 1]);
      AddNewFacts(Merged(asks[..|asks| - 1]), asks[|asks| - 1]);
    }
  }

  lemma {:induction false} MergedAnswers(asks: seq<seq<Edge>>, j: nat)
    requires j < |asks|
    ensures Answered(Merged(asks), asks[j])
    decreases asks
  {
    var n := |asks| - 1;
    var before := Merged(asks[..n]);
    MergedUnique(asks[..n]);
    AddNewFacts(before, asks[n]);
    if j < n {
      MergedAnswers(asks[..n], j);
    }
  }

  /** Every edge was put there by the first call that asked for its pair. */
  lemma {:induction false} MergedByFirst(asks: seq<seq<Edge>>, e: Edge) returns (j: nat)
    requires e in Merged(asks)
    ensures FirstAsks(asks, j, e)
    decreases asks
  {
    var n := |asks| - 1;
    var before := Merged(asks[..n]);
    MergedUnique(asks[..n]);
    AddNewFacts(before, asks[n]);
    if e in before {
      j := MergedByFirst(asks[..n], e);
      assert forall i :: 0 <= i < n ==> asks[..n][i] == asks[i];
    } else {
      j := n;
      forall i | 0 <= i < n
        ensures !HasPair(asks[i], e.src, e.dst)
      {
        MergedAnswers(asks[..n], i);
        assert forall k :: 0 <= k < |asks[i]| ==> asks[i][k] in asks[i];
      }
    }
  }

  lemma EdgeIsSound(nodes: Nodes, calls: seq<FileCall>, e: Edge) returns (c: FileCall)
    requires WellNamed(nodes) && CallersAreNodes(calls, nodes) && e in Linked(nodes, calls)
    ensures c in calls && c.caller == e.src && e in EdgesFor(nodes, c)
    ensures e.src in nodes.vals && e.dst in nodes.vals && e.provenance != Inferred
  {
    var j := MergedByFirst(Asks(nodes, calls), e);
    c := calls[j];
    EdgesForFacts(nodes, c, e);
  }

  function AllEdges(files: seq<Source>): seq<Edge> {
    CollectedFacts(files);
    Linked(AllNodes(files), AllCalls(files))
  }

  /** Some call of these files, made inside `e`'s source, resolves to `e`. */
  ghost predicate Witnessed(files: seq<Source>, e: Edge) {
    CollectedFacts(files);
    exists c :: c in AllCalls(files) && c.caller == e.src && e in EdgesFor(AllNodes(files), c)
  }

  /**
    End to end: the graph of any set of files is closed, holds each pair once, labels an edge
    'extracted' or 'ambiguous' only, and takes every edge from a real call inside its source.
   */
  lemma GraphIsSound(files: seq<Source>)
    ensures WellNamed(AllNodes(files)) && Closed(AllEdges(files), AllNodes(files))
    ensures PairsUnique(AllEdges(files))
    ensures forall e :: e in AllEdges(files) ==> e.provenance != Inferred && Witnessed(files, e)
  {
    CollectedFacts(files);
    var nodes, calls := AllNodes(files), AllCalls(files);
    MergedUnique(Asks(nodes, calls));
    forall e | e in AllEdges(files)
      ensures e.src in nodes.vals && e.dst in nodes.vals && e.provenance != Inferred && Witnessed(files, e)
    {
      var c := EdgeIsSound(nodes, calls, e);
    }
  }

  /**
    A call that resolves to one callee always has its edge.  Whether that edge is trusted is
    settled by the first call between the two: it reads 'extracted' iff that one was unique.
   */
  lemma UniqueCallHasItsEdge(nodes: Nodes, calls: seq<FileCall>, c: nat, e: Edge, first: nat, asked: Edge)
    requires WellNamed(nodes) && c < |calls| && EdgesFor(nodes, calls[c]) == [e]
    requires FirstAsks(Asks(nodes, calls), first, asked) && asked.src == e.src && asked.dst == e.dst
    ensures HasPair(Linked(nodes, calls), e.src, e.dst)
    ensures e in Linked(nodes, calls) <==> |EdgesFor(nodes, calls[first])| == 1
  {
    var edges := Linked(nodes, calls);
    MergedAnswers(Asks(nodes, calls), c);
    assert e in Asks(nodes, calls)[c];
    EdgesForFacts(nodes, calls[c], e);
    EdgesForFacts(nodes, calls[first], asked);
    var i :| 0 <= i < |edges| && edges[i].src == e.src && edges[i].dst == e.dst;
    FirstDecides(nodes, calls, edges[i], first, asked);
    assert asked in edges;
    if e in edges { FirstDecides(nodes, calls, e, first, asked); }
  }

  lemma FirstDecides(nodes: Nodes, calls: seq<FileCall>, e: Edge, first: nat, asked: Edge)
    requires WellNamed(nodes) && e in Linked(nodes, calls)
    requires FirstAsks(Asks(nodes, calls), first, asked) && asked.src == e.src && asked.dst == e.dst
    ensures e == asked
  {
    var j := MergedByFirst(Asks(nodes, calls), e);
    SameFirst(Asks(nodes, calls), j, e, first, asked);
  }

  lemma SameFirst(asks: seq<seq<Edge>>, j: nat, e: Edge, k: nat, f: Edge)
    requires FirstAsks(asks, j, e) && FirstAsks(asks, k, f) && e.src == f.src && e.dst == f.dst
    ensures j == k
  {
    var x :| 0 <= x < |asks[j]| && asks[j][x] == e;
    var y :| 0 <= y < |asks[k]| && asks[k][y] == f;
    assert HasPair(asks[j], e.src, e.dst) && HasPair(asks[k], f.src, f.dst);
  }

  // --- the builder -------------------------------------------------------------------------

  method BuildGraph(files: seq<Source>) returns (g: RepoGraph)
    ensures fresh(g) && g.Valid()
    ensures g.nodes == AllNodes(files) && g.edges == AllEdges(files)
  {
    var nodes: Nodes := EmptyDict();
    var raw: seq<FileCall> := [];
    for i := 0 to |files|
      invariant nodes == AllNodes(files[..i]) && raw == AllCalls(files[..i])
    {
      assert files[..i + 1][..i] == files[..i];
      if !IsPython(files[i].path) { continue; }
      if files[i].tree.None? { continue; }
      nodes, raw := AddFile(files[i], nodes, raw);
    }
    assert files[..|files|] == files;
    CollectedFacts(files);
    g := new RepoGraph(nodes, []);
    g.Reindex();
    var linked := LinkCalls(g, raw);
    g.edges := linked;
  }

  /** Visit one file and merge what the visitor holds. */
  method AddFile(s: Source, nodes: Nodes, raw: seq<FileCall>) returns (nodes': Nodes, raw': seq<FileCall>)
    requires Parsed(s)
    ensures var own := PutAll(EmptyDict(), FileNodes(s));
      own.Valid() && nodes' == UpdateWith(nodes, own, |own.keys|)
    ensures raw' == raw + InFile(s.path, CallsIn(s.tree.value, s.path, []))
  {
    NodesNamed(s.tree.value, s.path, []);
    PutAllFacts(FileNodes(s));
    var v := VisitFile(s);
    nodes' := UpdateWith(nodes, v.nodes, |v.nodes.keys|);
    var own := CallsWithCaller(s.path, v.calls);
    raw' := raw + own;
  }

  method VisitFile(s: Source) returns (v: FileVisitor)
    requires Parsed(s)
    ensures fresh(v) && v.nodes == PutAll(EmptyDict(), FileNodes(s))
    ensures v.calls == CallsIn(s.tree.value, s.path, [])
  {
    v := new FileVisitor(s.path);
    v.Visit(s.tree.value, []);
    assert v.defs == FileNodes(s);
  }

  method CallsWithCaller(file: string, calls: seq<RawCall>) returns (out: seq<FileCall>)
    ensures out == InFile(file, calls)
  {
    out := [];
    for i := 0 to |calls|
      invariant out == InFile(file, calls[..i])
    {
      assert calls[..i + 1][..i] == calls[..i];
      var c := calls[i];
      if c.caller.Some? { out := out + [FileCall(file, c.caller.value, c.name, c.isSelf)]; }
    }
    assert calls[..|calls|] == calls;
  }

  ghost predicate PairsOf(seen: set<(Id, Id)>, edges: seq<Edge>) {
    forall p :: p in seen <==> HasPair(edges, p.0, p.1)
  }

  /** The resolution loop with its set of pairs already linked. */
  method LinkCalls(g: RepoGraph, raw: seq<FileCall>) returns (edges: seq<Edge>)
    requires g.Valid()
    modifies g`byName
    ensures g.Valid() && edges == Linked(g.nodes, raw)
  {
    edges := [];
    var seen: set<(Id, Id)> := {};
    for i := 0 to |raw|
      invariant g.Valid() && edges == Linked(g.nodes, raw[..i]) && PairsOf(seen, edges)
    {
      assert Asks(g.nodes, raw[..i + 1]) == Asks(g.nodes, raw[..i]) + [EdgesFor(g.nodes, raw[i])];
      assert Asks(g.nodes, raw[..i + 1])[..i] == Asks(g.nodes, raw[..i]);
      var asked := Ask(g, raw[i]);
      edges, seen := AppendNew(edges, seen, asked);
    }
    assert raw[..|raw|] == raw;
  }

  method AppendNew(edges: seq<Edge>, seen: set<(Id, Id)>, asked: seq<Edge>)
    returns (edges': seq<Edge>, seen': set<(Id, Id)>)
    requires PairsOf(seen, edges)
    ensures edges' == AddNew(edges, asked) && PairsOf(seen', edges')
  {
    edges', seen' := edges, seen;
    for k := 0 to |asked|
      invariant edges' == AddNew(edges, asked[..k]) && PairsOf(seen', edges')
    {
      assert asked[..k + 1][..k] == asked[..k];
      var e := asked[k];
      if (e.src, e.dst) !in seen' {
        OneMorePair(edges', e);
        seen' := seen' + {(e.src, e.dst)};
        edges' := edges' + [e];
      }
    }
    assert asked[..|asked|] == asked;
  }

  lemma OneMorePair(edges: seq<Edge>, e: Edge)
    ensures forall a, b :: HasPair(edges + [e], a, b) <==> HasPair(edges, a, b) || (a == e.src && b == e.dst)
  {
    forall a, b
      ensures HasPair(edges + [e], a, b) <==> HasPair(edges, a, b) || (a == e.src && b == e.dst)
    {
      if HasPair(edges, a, b) {
        var i :| 0 <= i < |edges| && edges[i].src == a && edges[i].dst == b;
        assert (edges + [e])[i] == edges[i];
      }
      assert (edges + [e])[|edges|] == e;
    }
  }

  /** One call's candidates and their provenance. */
  method Ask(g: RepoGraph, c: FileCall) returns (edges: seq<Edge>)
    requires g.Valid()
    modifies g`byName
    ensures g.Valid() && edges == EdgesFor(g.nodes, c)
  {
    var ids: seq<Id>;
    if c.isSelf {
      ids := SelfCandidates(g.nodes.keys, g.nodes.vals, c.file, BeforeLastDot(AfterSep(c.caller)), c.name);
      return Labelled(c.caller, ids, if |ids| == 1 then Extracted else Inferred);
    }
    var found := g.Resolve(c.name);
    ids := Without(found, c.caller);
    if |ids| == 1 { return Labelled(c.caller, ids, Extracted); }
    if 2 <= |ids| <= FANOUT_CAP { return Labelled(c.caller, ids, Ambiguous); }
    return [];
  }
}
