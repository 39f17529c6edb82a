/** rca_agent/graph.py, the end of `build_graph_from_sources`: which calls end up as which edges. */
module CallLinks {
  import opened Basics
  import opened CodeGraph
  import opened GraphBuilder
  import opened GraphLinker
  import opened SelfCalls

  // --- a call by name --------------------------------------------------------------------------

  /** The nodes that a call by name can mean: not its own caller. */
  ghost function Others(nodes: Nodes, c: FileCall): set<Id> {
    set i | i in nodes.vals && i != c.caller
            && (i == c.name
                || (c.name !in nodes.vals && (nodes.vals[i].name == c.name || nodes.vals[i].qualname == c.name)))
  }

  lemma {:induction false} ScanOnce(ids: seq<Id>, vals: map<Id, Node>, symbol: string)
    requires (forall i :: i in ids ==> i in vals) && NoDuplicates(ids)
    ensures NoDuplicates(Scan(ids, vals, symbol))
    decreases ids
  {
    if ids != [] {
      var init, last := ids[..|ids| - 1], ids[|ids| - 1];
      assert ids == init + [last];
      assert last !in init;
      ScanOnce(init, vals, symbol);
      ScanFinds(init, vals, symbol, last);
    }
  }

  lemma {:induction false} WithoutOnce(ids: seq<Id>, x: Id)
    requires NoDuplicates(ids)
    ensures NoDuplicates(Without(ids, x))
    decreases ids
  {
    if ids != [] {
      var init, last := ids[..|ids| - 1], ids[|ids| - 1];
      assert ids == init + [last];
      assert last !in init;
      WithoutOnce(init, x);
      WithoutAre(init, x);
    }
  }

  lemma OthersAreCallees(nodes: Nodes, c: FileCall)
    requires ValidNodes(nodes) && !c.isSelf
    ensures (set i | i in Callees(nodes, c)) == Others(nodes, c) && |Callees(nodes, c)| == |Others(nodes, c)|
  {
    var ids := Callees(nodes, c);
    ScanOnce(nodes.keys, nodes.vals, c.name);
    WithoutOnce(ResolveIds(nodes, c.name), c.caller);
    WithoutAre(ResolveIds(nodes, c.name), c.caller);
    forall i
      ensures i in ids <==> i in Others(nodes, c)
    {
      RootsAreBearers(nodes, c.name, i);
    }
    assert (set i | i in ids) == Others(nodes, c);
    DistinctCard(ids);
  }

  lemma LabelledAre(caller: Id, ids: seq<Id>, p: Provenance, e: Edge)
    ensures e in Labelled(caller, ids, p) <==> e.src == caller && e.dst in ids && e.provenance == p
  {
    if e.src == caller && e.dst in ids && e.provenance == p {
      var i :| 0 <= i < |ids| && ids[i] == e.dst;
      assert Labelled(caller, ids, p)[i] == e;
    }
  }

  /** One candidate is trusted, two or three are guesses, and more than three are noise. */
  lemma CallByNameAsks(nodes: Nodes, c: FileCall, e: Edge)
    requires ValidNodes(nodes) && !c.isSelf
    ensures e in EdgesFor(nodes, c) <==>
      && e.src == c.caller && e.dst in Others(nodes, c) && |Others(nodes, c)| <= 3
      && e.provenance == if |Others(nodes, c)| == 1 then Extracted else Ambiguous
  {
    var ids := Callees(nodes, c);
    OthersAreCallees(nodes, c);
    assert e.dst in ids <==> e.dst in (set i | i in ids);
    LabelledAre(c.caller, ids, Extracted, e);
    LabelledAre(c.caller, ids, Ambiguous, e);
    if e.dst in Others(nodes, c) { assert |ids| > 0; }
  }

  // --- a call on `self` -------------------------------------------------------------------------

  /** The caller is a method of the class `cls`, read off its id: what stands between the first "::" and the last dot. */
  ghost predicate CallsFrom(caller: Id, cls: string) {
    exists path: string, m: string :: ColonFree(path) && '.' !in m && caller == path + "::" + (cls + "." + m)
  }

  lemma {:induction false} AfterFirstSep(s: string)
    ensures AfterSep(s) == "" || exists path: string :: ColonFree(path) && s == path + "::" + AfterSep(s)
    decreases s
  {
    if |s| >= 2 {
      if s[0] == ':' && s[1] == ':' {
        assert ColonFree("") && s == "" + "::" + AfterSep(s);
      } else {
        AfterFirstSep(s[1..]);
        if AfterSep(s) != "" {
          var path: string :| ColonFree(path) && s[1..] == path + "::" + AfterSep(s);
          StillColonFree(s, path);
        }
      }
    }
  }

  lemma {:induction false} StillColonFree(s: string, path: string)
    requires |s| >= 2 && !(s[0] == ':' && s[1] == ':') && ColonFree(path)
    requires |path| + 3 <= |s| && s[1..|path| + 3] == path + "::"
    ensures ColonFree([s[0]] + path) && s == ([s[0]] + path) + "::" + s[|path| + 3..]
  {
    var p := [s[0]] + path;
    assert s[1..|path| + 3][0] == s[1];
    forall i | 0 <= i < |p| - 1
      ensures !(p[i] == ':' && p[i + 1] == ':')
    {
      if i > 0 { assert p[i] == path[i - 1] && p[i + 1] == path[i - 1 + 1]; }
    }
  }

  lemma ClassOfCaller(caller: Id, cls: string)
    ensures BeforeLastDot(AfterSep(caller)) == Some(cls) <==> CallsFrom(caller, cls)
  {
    var q := AfterSep(caller);
    if BeforeLastDot(q) == Some(cls) {
      AfterFirstSep(caller);
      BeforeLastDotIs(q);
      var m: string :| '.' !in m && q == cls + "." + m;
      var path: string :| ColonFree(path) && caller == path + "::" + q;
    }
    if path: string, m: string :| ColonFree(path) && '.' !in m && caller == path + "::" + (cls + "." + m) {
      AfterSepOfId(path, cls + "." + m);
      LastDotAt(cls, m);
    }
  }

  ghost predicate OwnMethod(nodes: Nodes, c: FileCall, i: Id) {
    i in nodes.vals && nodes.vals[i].file == c.file && nodes.vals[i].kind == Method
    && exists cls: string :: CallsFrom(c.caller, cls) && nodes.vals[i].qualname == cls + "." + c.name
  }

  lemma {:induction false} SelfCandidatesHave(ids: seq<Id>, vals: map<Id, Node>, file: string, cls: Option<string>,
                                              name: string, x: Id)
    requires forall i :: i in ids ==> i in vals
    ensures x in SelfCandidates(ids, vals, file, cls, name) <==>
      x in ids && vals[x].file == file && vals[x].kind == Method && cls.Some? && vals[x].qualname == cls.value + "." + name
    decreases ids
  {
    if ids != [] {
      InitAndLast(ids);
      SelfCandidatesHave(ids[..|ids| - 1], vals, file, cls, name, x);
    }
  }

  /** A call on `self` asks for one edge at most, and that one is trusted. */
  lemma SelfCallAsks(nodes: Nodes, c: FileCall, e: Edge)
    requires WellNamed(nodes) && c.isSelf
    ensures e in EdgesFor(nodes, c) <==> e.src == c.caller && OwnMethod(nodes, c, e.dst) && e.provenance == Extracted
    ensures |EdgesFor(nodes, c)| <= 1
  {
    var cls, ids := BeforeLastDot(AfterSep(c.caller)), Callees(nodes, c);
    SelfCandidatesAre(nodes.keys, nodes.vals, c.file, cls, c.name);
    SelfCandidatesHave(nodes.keys, nodes.vals, c.file, cls, c.name, e.dst);
    forall k { ClassOfCaller(c.caller, k); }
    assert e.dst in ids <==> OwnMethod(nodes, c, e.dst);
    LabelledAre(c.caller, ids, Extracted, e);
    LabelledAre(c.caller, ids, Inferred, e);
  }

  // --- the finished graph -------------------------------------------------------------------------

  /** The call is taken to mean node `n`. */
  ghost predicate Means(nodes: Nodes, c: FileCall, n: Id) {
    if c.isSelf then OwnMethod(nodes, c, n) else n in Others(nodes, c) && |Others(nodes, c)| <= 3
  }

  lemma MeansAsks(nodes: Nodes, c: FileCall, n: Id)
    requires WellNamed(nodes)
    ensures Means(nodes, c, n) <==> HasPair(EdgesFor(nodes, c), c.caller, n)
  {
    var asked := EdgesFor(nodes, c);
    forall e
      ensures e in asked ==> e.src == c.caller && Means(nodes, c, e.dst)
    {
      if c.isSelf { SelfCallAsks(nodes, c, e); } else { CallByNameAsks(nodes, c, e); }
    }
    if Means(nodes, c, n) {
      var e := Edge(c.caller, n, if c.isSelf || |Others(nodes, c)| == 1 then Extracted else Ambiguous);
      if c.isSelf { SelfCallAsks(nodes, c, e); } else { CallByNameAsks(nodes, c, e); }
      assert e in asked;
    }
  }

  /** Two nodes are joined exactly when some call made in the one is taken to mean the other. */
  lemma LinkedIff(files: seq<Source>, a: Id, n: Id)
    ensures HasPair(AllEdges(files), a, n) <==>
      exists c :: c in AllCalls(files) && c.caller == a && Means(AllNodes(files), c, n)
  {
    CollectedFacts(files);
    var nodes, calls, edges := AllNodes(files), AllCalls(files), AllEdges(files);
    if HasPair(edges, a, n) {
      var i :| 0 <= i < |edges| && edges[i].src == a && edges[i].dst == n;
      var c := EdgeIsSound(nodes, calls, edges[i]);
      MeansAsks(nodes, c, n);
    }
    if c :| c in calls && c.caller == a && Means(nodes, c, n) {
      var asked := EdgesFor(nodes, c);
      MeansAsks(nodes, c, n);
      var k :| 0 <= k < |asked| && asked[k].src == a && asked[k].dst == n;
      AskedIsLinked(files, c, asked[k]);
    }
  }

  /** A name with one, two or three candidates is linked to every one of them. */
  lemma FewCandidatesAreLinked(files: seq<Source>, c: FileCall, n: Id)
    requires c in AllCalls(files) && !c.isSelf
    requires 1 <= |Others(AllNodes(files), c)| <= 3 && n in Others(AllNodes(files), c)
    ensures HasPair(AllEdges(files), c.caller, n)
  {
    LinkedIff(files, c.caller, n);
  }

  /** What an edge says of the trust in it is settled by the first call that asked for it. */
  lemma LabelOf(files: seq<Source>, e: Edge) returns (j: nat)
    requires e in AllEdges(files)
    ensures j < |AllCalls(files)|
    ensures var nodes, calls := AllNodes(files), AllCalls(files);
      && calls[j].caller == e.src && Means(nodes, calls[j], e.dst)
      && (forall i :: 0 <= i < j && calls[i].caller == e.src ==> !Means(nodes, calls[i], e.dst))
      && e.provenance == if calls[j].isSelf || |Others(nodes, calls[j])| == 1 then Extracted else Ambiguous
  {
    CollectedFacts(files);
    var nodes, calls := AllNodes(files), AllCalls(files);
    j := MergedByFirst(Asks(nodes, calls), e);
    if calls[j].isSelf { SelfCallAsks(nodes, calls[j], e); } else { CallByNameAsks(nodes, calls[j], e); }
    forall i | 0 <= i < j && calls[i].caller == e.src
      ensures !Means(nodes, calls[i], e.dst)
    {
      assert Asks(nodes, calls)[i] == EdgesFor(nodes, calls[i]);
      MeansAsks(nodes, calls[i], e.dst);
    }
  }
}
