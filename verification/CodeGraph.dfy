/**
  rca_agent/graph.py, `RepoGraph`: the name index and the two bounded searches, on any graph:
  cycles, several roots, edges to ids that are no nodes.
 */
module CodeGraph {
  import opened Basics
  import opened Reachability

  type Id = string

  datatype Kind = Function | Method | Class
  datatype Provenance = Extracted | Ambiguous | Inferred

  datatype Node = Node(id: Id, name: string, qualname: string, kind: Kind, file: string, line: int)
  datatype Edge = Edge(src: Id, dst: Id, provenance: Provenance)

  type Nodes = Dict<Id, Node>

  ghost predicate ValidNodes(nodes: Nodes) {
    nodes.Valid() && forall i :: i in nodes.vals ==> nodes.vals[i].id == i
  }

  // --- names -------------------------------------------------------------------------

  predicate Bears(n: Node, symbol: string) {
    n.name == symbol || n.qualname == symbol
  }

  /** The linear scan: the ids of all nodes bearing `symbol`, in node order. */
  function Scan(ids: seq<Id>, vals: map<Id, Node>, symbol: string): seq<Id>
    requires forall i :: i in ids ==> i in vals
  {
    if ids == [] then []
    else
      var last := ids[|ids| - 1];
      Scan(ids[..|ids| - 1], vals, symbol) + if Bears(vals[last], symbol) then [last] else []
  }

  /** What `resolve` should answer: an id names itself, anything else is looked up by name. */
  function ResolveIds(nodes: Nodes, symbol: string): seq<Id>
    requires nodes.Valid()
  {
    if symbol in nodes.vals then [symbol] else Scan(nodes.keys, nodes.vals, symbol)
  }

  function Roots(nodes: Nodes, symbol: string): set<Id>
    requires nodes.Valid()
  {
    set i | i in ResolveIds(nodes, symbol)
  }

  lemma ScanStep(ids: seq<Id>, vals: map<Id, Node>, i: nat, symbol: string)
    requires i < |ids| && forall k :: k in ids ==> k in vals
    ensures Scan(ids[..i + 1], vals, symbol)
         == Scan(ids[..i], vals, symbol) + if Bears(vals[ids[i]], symbol) then [ids[i]] else []
  {
    assert ids[..i + 1][..i] == ids[..i];
  }

  lemma {:induction false} ScanFinds(ids: seq<Id>, vals: map<Id, Node>, symbol: string, id: Id)
    requires forall i :: i in ids ==> i in vals
    ensures id in Scan(ids, vals, symbol) <==> id in ids && Bears(vals[id], symbol)
    decreases ids
  {
    if ids != [] {
      assert ids == ids[..|ids| - 1] + [ids[|ids| - 1]];
      ScanFinds(ids[..|ids| - 1], vals, symbol, id);
    }
  }

  /** An id names its node alone; any other symbol names the nodes called so, in full or for short. */
  lemma RootsAreBearers(nodes: Nodes, symbol: string, id: Id)
    requires ValidNodes(nodes)
    ensures id in Roots(nodes, symbol) <==>
      id in nodes.vals && (id == symbol
        || (symbol !in nodes.vals && (nodes.vals[id].name == symbol || nodes.vals[id].qualname == symbol)))
  {
    if symbol !in nodes.vals { ScanFinds(nodes.keys, nodes.vals, symbol, id); }
  }

  // --- arcs ----------------------------------------------------------------------------

  predicate Usable(e: Edge, includeAmbiguous: bool) {
    includeAmbiguous || e.provenance != Ambiguous
  }

  /** Caller to callee, along the edges a search may use. */
  function CallArcs(edges: seq<Edge>, includeAmbiguous: bool): Arcs<Id> {
    if edges == [] then []
    else
      var e := edges[|edges| - 1];
      CallArcs(edges[..|edges| - 1], includeAmbiguous) + if Usable(e, includeAmbiguous) then [(e.src, e.dst)] else []
  }

  /** Both directions of every edge. */
  function BothWays(edges: seq<Edge>): Arcs<Id> {
    if edges == [] then []
    else
      var e := edges[|edges| - 1];
      BothWays(edges[..|edges| - 1]) + [(e.src, e.dst)] + [(e.dst, e.src)]
  }

  lemma {:induction false} CallArcsAre(edges: seq<Edge>, includeAmbiguous: bool, a: (Id, Id))
    ensures a in CallArcs(edges, includeAmbiguous) <==>
      exists e :: e in edges && e.src == a.0 && e.dst == a.1 && (includeAmbiguous || e.provenance != Ambiguous)
    decreases edges
  {
    if edges != [] {
      var last := edges[|edges| - 1];
      assert edges == edges[..|edges| - 1] + [last];
      CallArcsAre(edges[..|edges| - 1], includeAmbiguous, a);
    }
  }

  lemma {:induction false} BothWaysAre(edges: seq<Edge>, a: (Id, Id))
    ensures a in BothWays(edges) <==>
      exists e :: e in edges && ((e.src == a.0 && e.dst == a.1) || (e.src == a.1 && e.dst == a.0))
    decreases edges
  {
    if edges != [] {
      var last := edges[|edges| - 1];
      assert edges == edges[..|edges| - 1] + [last];
      BothWaysAre(edges[..|edges| - 1], a);
    }
  }

  lemma CallersBefore(edges: seq<Edge>, includeAmbiguous: bool, s: set<Id>)
    ensures forall i :: i in Into(CallArcs(edges, includeAmbiguous), s) <==>
      exists e :: e in edges && e.src == i && e.dst in s && (includeAmbiguous || e.provenance != Ambiguous)
  {
    var arcs := CallArcs(edges, includeAmbiguous);
    forall i
      ensures i in Into(arcs, s) <==>
        exists e :: e in edges && e.src == i && e.dst in s && (includeAmbiguous || e.provenance != Ambiguous)
    {
      IntoIs(arcs, s, i);
      if a :| a in arcs && a.1 in s && a.0 == i { CallArcsAre(edges, includeAmbiguous, a); }
      if e :| e in edges && e.src == i && e.dst in s && (includeAmbiguous || e.provenance != Ambiguous) {
        CallArcsAre(edges, includeAmbiguous, (i, e.dst));
      }
    }
  }

  /** Each edge of `es` starts where the one before it ended. */
  ghost predicate EndToEnd(es: seq<Edge>) {
    forall i :: 0 < i < |es| ==> es[i - 1].dst == es[i].src
  }

  /** Edges that lead from `n` to a root. */
  ghost predicate LeadsTo(es: seq<Edge>, n: Id, roots: set<Id>) {
    es != [] && EndToEnd(es) && es[0].src == n && es[|es| - 1].dst in roots
  }

  // --- transitive callers: the meaning --------------------------------------------------

  /** The callers found in the first round; roots are not looked for there. */
  function DirectCallers(arcs: Arcs<Id>, roots: set<Id>): set<Id> {
    Into(arcs, roots) - roots
  }

  /** All that the search has seen after `depth` rounds. */
  function CallersWithin(arcs: Arcs<Id>, roots: set<Id>, depth: nat): set<Id> {
    if depth == 0 then {} else Ball(arcs, DirectCallers(arcs, roots), depth - 1)
  }

  /** A call chain of `len` arcs from `n` to a root whose last caller is no root itself. */
  ghost predicate ChainTo(arcs: Arcs<Id>, n: Id, roots: set<Id>, len: nat) {
    exists p: seq<Id> :: Walk(arcs, p) && len >= 1 && |p| == len + 1 && p[0] == n
                         && p[len] in roots && p[len - 1] !in roots
  }

  lemma ChainIsWalkToDirect(arcs: Arcs<Id>, n: Id, roots: set<Id>, len: nat)
    ensures ChainTo(arcs, n, roots, len + 1) <==> WalkTo(arcs, n, DirectCallers(arcs, roots), len)
  {
    if ChainTo(arcs, n, roots, len + 1) {
      var p :| Walk(arcs, p) && |p| == len + 2 && p[0] == n && p[len + 1] in roots && p[len] !in roots;
      var q := p[..len + 1];
      assert (p[len], p[len + 1]) in arcs;
      IntoIs(arcs, roots, p[len]);
      assert q[len] in DirectCallers(arcs, roots) && Walk(arcs, q);
    }
    if WalkTo(arcs, n, DirectCallers(arcs, roots), len) {
      var q :| Walk(arcs, q) && |q| == len + 1 && q[0] == n && q[len] in DirectCallers(arcs, roots);
      IntoIs(arcs, roots, q[len]);
      var a :| a in arcs && a.1 in roots && a.0 == q[len];
      var p := q + [a.1];
      assert Walk(arcs, p) && p[len + 1] in roots && p[len] !in roots;
    }
  }

  /** Exactly: within `depth` rounds means on a call chain of 1 to `depth` arcs. */
  lemma CallersAreChains(arcs: Arcs<Id>, roots: set<Id>, depth: nat, n: Id)
    ensures n in CallersWithin(arcs, roots, depth)
       <==> exists len: nat :: 1 <= len <= depth && ChainTo(arcs, n, roots, len)
  {
    if depth > 0 {
      BallIsWalks(arcs, DirectCallers(arcs, roots), depth - 1, n);
      if len: nat :| len <= depth - 1 && WalkTo(arcs, n, DirectCallers(arcs, roots), len) {
        ChainIsWalkToDirect(arcs, n, roots, len);
      }
      if len: nat :| 1 <= len <= depth && ChainTo(arcs, n, roots, len) {
        ChainIsWalkToDirect(arcs, n, roots, len - 1);
      }
    }
  }

  /** The first arrival of a walk at the roots. */
  lemma {:induction false} FirstArrival(arcs: Arcs<Id>, roots: set<Id>, p: seq<Id>)
    returns (i: nat)
    requires Walk(arcs, p) && p[0] !in roots && p[|p| - 1] in roots
    ensures 1 <= i < |p| && p[i] in roots && p[i - 1] !in roots
    decreases p
  {
    if p[1] in roots {
      i := 1;
    } else {
      i := FirstArrival(arcs, roots, p[1..]);
      i := i + 1;
    }
  }

  /** For a node that is no root, any walk of 1 to `depth` arcs to a root will do. */
  lemma NonRootCallers(arcs: Arcs<Id>, roots: set<Id>, depth: nat, n: Id)
    requires n !in roots
    ensures n in CallersWithin(arcs, roots, depth)
       <==> exists len: nat :: 1 <= len <= depth && WalkTo(arcs, n, roots, len)
  {
    CallersAreChains(arcs, roots, depth, n);
    if len: nat :| 1 <= len <= depth && WalkTo(arcs, n, roots, len) {
      var p :| Walk(arcs, p) && |p| == len + 1 && p[0] == n && p[len] in roots;
      var i := FirstArrival(arcs, roots, p);
      var q := p[..i + 1];
      assert Walk(arcs, q) && q[i] in roots && q[i - 1] !in roots;
      assert ChainTo(arcs, n, roots, i);
    }
    if len: nat :| 1 <= len <= depth && ChainTo(arcs, n, roots, len) {
      assert WalkTo(arcs, n, roots, len);
    }
  }

  /** A root comes back only along a walk of two arcs or more to a root. */
  lemma RootCallers(arcs: Arcs<Id>, roots: set<Id>, depth: nat, n: Id)
    requires n in roots && n in CallersWithin(arcs, roots, depth)
    ensures exists len: nat :: 2 <= len <= depth && WalkTo(arcs, n, roots, len)
  {
    CallersAreChains(arcs, roots, depth, n);
    var len: nat :| 1 <= len <= depth && ChainTo(arcs, n, roots, len);
    assert WalkTo(arcs, n, roots, len) && len != 1;
  }

  /** The edges under a walk. */
  lemma {:induction false} EdgesUnder(edges: seq<Edge>, includeAmbiguous: bool, p: seq<Id>) returns (es: seq<Edge>)
    requires Walk(CallArcs(edges, includeAmbiguous), p)
    ensures |es| == |p| - 1 && forall i :: 0 <= i < |es| ==> es[i].src == p[i] && es[i].dst == p[i + 1]
    ensures forall e :: e in es ==> e in edges && (includeAmbiguous || e.provenance != Ambiguous)
    decreases p
  {
    if |p| == 1 {
      es := [];
    } else {
      var a := (p[0], p[0 + 1]);
      CallArcsAre(edges, includeAmbiguous, a);
      var e :| e in edges && e.src == a.0 && e.dst == a.1 && (includeAmbiguous || e.provenance != Ambiguous);
      var rest := EdgesUnder(edges, includeAmbiguous, p[1..]);
      es := [e] + rest;
    }
  }

  /** The nodes that edges pass through. */
  function NodesAlong(es: seq<Edge>): (p: seq<Id>)
    requires es != []
    ensures |p| == |es| + 1 && p[|es|] == es[|es| - 1].dst
    ensures forall i :: 0 <= i < |es| ==> p[i] == es[i].src
  {
    seq(|es|, i requires 0 <= i < |es| => es[i].src) + [es[|es| - 1].dst]
  }

  lemma {:induction false} NodesAlongWalk(edges: seq<Edge>, includeAmbiguous: bool, es: seq<Edge>)
    requires es != [] && EndToEnd(es)
    requires forall e :: e in es ==> e in edges && (includeAmbiguous || e.provenance != Ambiguous)
    ensures Walk(CallArcs(edges, includeAmbiguous), NodesAlong(es))
  {
    var p := NodesAlong(es);
    forall i | 0 <= i < |p| - 1
      ensures (p[i], p[i + 1]) in CallArcs(edges, includeAmbiguous)
    {
      assert es[i] in es && es[i].src == p[i];
      assert es[i].dst == p[i + 1] by { assert i + 1 < |es| ==> es[i + 1 - 1].dst == es[i + 1].src; }
      CallArcsAre(edges, includeAmbiguous, (p[i], p[i + 1]));
    }
  }

  /** On the edges themselves: found means a chain of trusted edges whose last caller is no root. */
  lemma {:induction false} CallersOnEdges(edges: seq<Edge>, includeAmbiguous: bool, roots: set<Id>, depth: nat, n: Id)
    ensures n in CallersWithin(CallArcs(edges, includeAmbiguous), roots, depth)
       <==> exists es: seq<Edge> ::
              LeadsTo(es, n, roots) && |es| <= depth && es[|es| - 1].src !in roots
              && forall e :: e in es ==> e in edges && (includeAmbiguous || e.provenance != Ambiguous)
  {
    hide CallersWithin, CallArcs;
    var arcs := CallArcs(edges, includeAmbiguous);
    CallersAreChains(arcs, roots, depth, n);
    if len: nat :| 1 <= len <= depth && ChainTo(arcs, n, roots, len) {
      var p :| Walk(arcs, p) && |p| == len + 1 && p[0] == n && p[len] in roots && p[len - 1] !in roots;
      var es := EdgesUnder(edges, includeAmbiguous, p);
      assert LeadsTo(es, n, roots);
    }
    if es: seq<Edge> :| LeadsTo(es, n, roots) && |es| <= depth && es[|es| - 1].src !in roots
                        && forall e :: e in es ==> e in edges && (includeAmbiguous || e.provenance != Ambiguous) {
      var p := NodesAlong(es);
      NodesAlongWalk(edges, includeAmbiguous, es);
      assert p[|es| - 1] !in roots;
      assert ChainTo(arcs, n, roots, |es|);
    }
  }

  lemma NobodyYet(arcs: Arcs<Id>, roots: set<Id>)
    ensures CallersWithin(arcs, roots, 0) == {}
  {
  }

  lemma SearchOnEdges(edges: seq<Edge>, includeAmbiguous: bool, roots: set<Id>, maxDepth: int)
    ensures var found := CallersWithin(CallArcs(edges, includeAmbiguous), roots, if maxDepth < 0 then 0 else maxDepth);
      forall n :: n in found <==>
        exists es: seq<Edge> :: LeadsTo(es, n, roots) && |es| <= maxDepth && es[|es| - 1].src !in roots
          && forall e :: e in es ==> e in edges && (includeAmbiguous || e.provenance != Ambiguous)
  {
    hide CallersWithin, CallArcs;
    var found := CallersWithin(CallArcs(edges, includeAmbiguous), roots, if maxDepth < 0 then 0 else maxDepth);
    forall n
      ensures n in found <==>
        exists es: seq<Edge> :: LeadsTo(es, n, roots) && |es| <= maxDepth && es[|es| - 1].src !in roots
          && forall e :: e in es ==> e in edges && (includeAmbiguous || e.provenance != Ambiguous)
    {
      CallersOnEdges(edges, includeAmbiguous, roots, if maxDepth < 0 then 0 else maxDepth, n);
    }
  }

  /** By default a node that is no root is found exactly along edges none of which is a guess. */
  lemma {:induction false} TrustedCallers(edges: seq<Edge>, roots: set<Id>, maxDepth: int, n: Id)
    requires n !in roots
    ensures n in CallersWithin(CallArcs(edges, false), roots, if maxDepth < 0 then 0 else maxDepth)
       <==> exists es: seq<Edge> :: LeadsTo(es, n, roots) && |es| <= maxDepth
              && forall e :: e in es ==> e in edges && e.provenance != Ambiguous
  {
    var depth := if maxDepth < 0 then 0 else maxDepth;
    CallersOnEdges(edges, false, roots, depth, n);
    if es: seq<Edge> :| LeadsTo(es, n, roots) && |es| <= depth
                        && forall e :: e in es ==> e in edges && e.provenance != Ambiguous {
      FoundAlong(edges, false, roots, depth, n, es);
    }
  }

  /** With the guesses let in, any edges do. */
  lemma {:induction false} AllCallers(edges: seq<Edge>, roots: set<Id>, maxDepth: int, n: Id)
    requires n !in roots
    ensures n in CallersWithin(CallArcs(edges, true), roots, if maxDepth < 0 then 0 else maxDepth)
       <==> exists es: seq<Edge> :: LeadsTo(es, n, roots) && |es| <= maxDepth && forall e :: e in es ==> e in edges
  {
    var depth := if maxDepth < 0 then 0 else maxDepth;
    CallersOnEdges(edges, true, roots, depth, n);
    if es: seq<Edge> :| LeadsTo(es, n, roots) && |es| <= depth && forall e :: e in es ==> e in edges {
      FoundAlong(edges, true, roots, depth, n, es);
    }
  }

  /** The same about the nodes that come out. */
  lemma {:induction false} FoundOnEdges(nodes: Nodes, edges: seq<Edge>, roots: set<Id>, includeAmbiguous: bool,
                                        maxDepth: int, found: set<Node>)
    requires ValidNodes(nodes)
    requires var seen := CallersWithin(CallArcs(edges, includeAmbiguous), roots, if maxDepth < 0 then 0 else maxDepth);
             found == set i | i in seen && i in nodes.vals :: nodes.vals[i]
    ensures !includeAmbiguous ==>
      forall i :: i in nodes.vals && i !in roots ==>
        (nodes.vals[i] in found <==>
          exists es: seq<Edge> :: LeadsTo(es, i, roots) && |es| <= maxDepth
            && forall e :: e in es ==> e in edges && e.provenance != Ambiguous)
    ensures includeAmbiguous ==>
      forall i :: i in nodes.vals && i !in roots ==>
        (nodes.vals[i] in found <==>
          exists es: seq<Edge> :: LeadsTo(es, i, roots) && |es| <= maxDepth && forall e :: e in es ==> e in edges)
  {
    hide CallersWithin, CallArcs, LeadsTo;
    var seen := CallersWithin(CallArcs(edges, includeAmbiguous), roots, if maxDepth < 0 then 0 else maxDepth);
    assert forall i :: i in nodes.vals ==> nodes.vals[i].id == i;
    if includeAmbiguous {
      forall i | i in nodes.vals && i !in roots
        ensures nodes.vals[i] in found <==>
          exists es: seq<Edge> :: LeadsTo(es, i, roots) && |es| <= maxDepth && forall e :: e in es ==> e in edges
      {
        AllCallers(edges, roots, maxDepth, i);
      }
    } else {
      forall i | i in nodes.vals && i !in roots
        ensures nodes.vals[i] in found <==>
          exists es: seq<Edge> :: LeadsTo(es, i, roots) && |es| <= maxDepth
            && forall e :: e in es ==> e in edges && e.provenance != Ambiguous
      {
        TrustedCallers(edges, roots, maxDepth, i);
      }
    }
  }

  lemma {:induction false} FoundAlong(edges: seq<Edge>, includeAmbiguous: bool, roots: set<Id>, depth: nat, n: Id,
                                      es: seq<Edge>)
    requires n !in roots && LeadsTo(es, n, roots) && |es| <= depth
    requires forall e :: e in es ==> e in edges && (includeAmbiguous || e.provenance != Ambiguous)
    ensures n in CallersWithin(CallArcs(edges, includeAmbiguous), roots, depth)
  {
    var p := NodesAlong(es);
    NodesAlongWalk(edges, includeAmbiguous, es);
    assert p[0] == n && WalkTo(CallArcs(edges, includeAmbiguous), n, roots, |es|);
    NonRootCallers(CallArcs(edges, includeAmbiguous), roots, depth, n);
  }

  lemma NoDirectCallers(arcs: Arcs<Id>, roots: set<Id>, depth: nat)
    requires DirectCallers(arcs, roots) == {}
    ensures CallersWithin(arcs, roots, depth) == {}
  {
    if depth > 0 { BallOfNone(arcs, depth - 1); }
  }

  lemma SaturatedAlike<T(!new)>(arcs: Arcs<T>, s: set<T>, j: nat, k: nat)
    requires s != {} && s <= Sources(arcs) && j + 1 >= |Sources(arcs)| && k + 1 >= |Sources(arcs)|
    ensures Ball(arcs, s, j) == Ball(arcs, s, k)
  {
    SubsetCard(s, Sources(arcs));
    assert |s| >= 1;
    BallSaturates(arcs, s, j);
    BallSaturates(arcs, s, k);
  }

  /** Raising the depth past the number of distinct callers changes nothing. */
  lemma CallersSaturate(arcs: Arcs<Id>, roots: set<Id>, depth: nat)
    requires depth >= |Sources(arcs)|
    ensures CallersWithin(arcs, roots, depth) == CallersWithin(arcs, roots, |Sources(arcs)|)
  {
    var n, first := |Sources(arcs)|, DirectCallers(arcs, roots);
    if first == {} {
      NoDirectCallers(arcs, roots, depth);
      NoDirectCallers(arcs, roots, n);
    } else {
      IntoSources(arcs, roots);
      SubsetCard(first, Sources(arcs));
      SaturatedAlike(arcs, first, depth - 1, n - 1);
    }
  }

  // --- subgraph: the meaning -------------------------------------------------------------

  function EdgesInside(edges: seq<Edge>, keep: set<Id>): seq<Edge> {
    if edges == [] then []
    else
      var last := edges[|edges| - 1];
      EdgesInside(edges[..|edges| - 1], keep) + if last.src in keep && last.dst in keep then [last] else []
  }

  lemma {:induction false} EdgesInsideAre(edges: seq<Edge>, keep: set<Id>, e: Edge)
    ensures e in EdgesInside(edges, keep) <==> e in edges && e.src in keep && e.dst in keep
    decreases edges
  {
    if edges != [] {
      assert edges == edges[..|edges| - 1] + [edges[|edges| - 1]];
      EdgesInsideAre(edges[..|edges| - 1], keep, e);
    }
  }

  /** An edge between the two, whichever way it points. */
  ghost predicate Touch(edges: seq<Edge>, a: Id, b: Id) {
    exists e :: e in edges && ((e.src == a && e.dst == b) || (e.src == b && e.dst == a))
  }

  /** The ids a subgraph keeps: those at most `depth` edges away from a root, whichever way each edge points. */
  lemma {:induction false} SubgraphOnEdges(edges: seq<Edge>, roots: set<Id>, depth: nat, n: Id)
    ensures n in Ball(BothWays(edges), roots, depth) <==>
      exists p: seq<Id> :: 1 <= |p| <= depth + 1 && p[0] == n && p[|p| - 1] in roots
        && forall i :: 0 <= i < |p| - 1 ==> Touch(edges, p[i], p[i + 1])
  {
    var arcs := BothWays(edges);
    BallIsWalks(arcs, roots, depth, n);
    if len: nat :| len <= depth && WalkTo(arcs, n, roots, len) {
      var p :| Walk(arcs, p) && |p| == len + 1 && p[0] == n && p[len] in roots;
      forall i | 0 <= i < |p| - 1
        ensures Touch(edges, p[i], p[i + 1])
      {
        BothWaysAre(edges, (p[i], p[i + 1]));
      }
    }
    if p: seq<Id> :| 1 <= |p| <= depth + 1 && p[0] == n && p[|p| - 1] in roots
                     && forall i :: 0 <= i < |p| - 1 ==> Touch(edges, p[i], p[i + 1]) {
      forall i | 0 <= i < |p| - 1
        ensures (p[i], p[i + 1]) in arcs
      {
        BothWaysAre(edges, (p[i], p[i + 1]));
      }
      assert Walk(arcs, p) && WalkTo(arcs, n, roots, |p| - 1);
    }
  }

  /** A deeper subgraph holds every id and every edge of a shallower one. */
  lemma SubgraphGrows(edges: seq<Edge>, roots: set<Id>, j: nat, k: nat, e: Edge)
    requires j <= k
    ensures Ball(BothWays(edges), roots, j) <= Ball(BothWays(edges), roots, k)
    ensures e in EdgesInside(edges, Ball(BothWays(edges), roots, j)) ==>
            e in EdgesInside(edges, Ball(BothWays(edges), roots, k))
  {
    EdgesInsideAre(edges, Ball(BothWays(edges), roots, j), e);
    EdgesInsideAre(edges, Ball(BothWays(edges), roots, k), e);
  }

  // --- callers, callees and the guardrail ----------------------------------------------------

  function CallersIn(edges: seq<Edge>, vals: map<Id, Node>, targets: set<Id>): seq<(Node, Provenance)> {
    if edges == [] then []
    else
      var e := edges[|edges| - 1];
      CallersIn(edges[..|edges| - 1], vals, targets)
      + if e.dst in targets && e.src in vals then [(vals[e.src], e.provenance)] else []
  }

  function CalleesIn(edges: seq<Edge>, vals: map<Id, Node>, sources: set<Id>): seq<(Node, Provenance)> {
    if edges == [] then []
    else
      var e := edges[|edges| - 1];
      CalleesIn(edges[..|edges| - 1], vals, sources)
      + if e.src in sources && e.dst in vals then [(vals[e.dst], e.provenance)] else []
  }

  ghost predicate EdgeBetween(edges: seq<Edge>, srcs: set<Id>, dsts: set<Id>) {
    exists e :: e in edges && e.src in srcs && e.dst in dsts
  }

  ghost predicate Closed(edges: seq<Edge>, nodes: Nodes) {
    forall e :: e in edges ==> e.src in nodes.vals && e.dst in nodes.vals
  }

  lemma {:induction false} CallersInAre(edges: seq<Edge>, vals: map<Id, Node>, targets: set<Id>, n: Node, p: Provenance)
    ensures (n, p) in CallersIn(edges, vals, targets) <==>
      exists e :: e in edges && e.dst in targets && e.src in vals && vals[e.src] == n && e.provenance == p
    decreases edges
  {
    if edges != [] {
      var last := edges[|edges| - 1];
      assert edges == edges[..|edges| - 1] + [last];
      CallersInAre(edges[..|edges| - 1], vals, targets, n, p);
    }
  }

  lemma {:induction false} CalleesInAre(edges: seq<Edge>, vals: map<Id, Node>, srcs: set<Id>, n: Node, p: Provenance)
    ensures (n, p) in CalleesIn(edges, vals, srcs) <==>
      exists e :: e in edges && e.src in srcs && e.dst in vals && vals[e.dst] == n && e.provenance == p
    decreases edges
  {
    if edges != [] {
      var last := edges[|edges| - 1];
      assert edges == edges[..|edges| - 1] + [last];
      CalleesInAre(edges[..|edges| - 1], vals, srcs, n, p);
    }
  }

  /** Three ways of asking for a call between two symbols, one answer. */
  lemma {:induction false} GuardrailAgrees(nodes: Nodes, edges: seq<Edge>, a: string, b: string)
    requires ValidNodes(nodes) && Closed(edges, nodes)
    ensures EdgeBetween(edges, Roots(nodes, a), Roots(nodes, b)) <==>
      exists c :: c in CallersIn(edges, nodes.vals, Roots(nodes, b)) && c.0.id in Roots(nodes, a)
    ensures EdgeBetween(edges, Roots(nodes, a), Roots(nodes, b)) <==>
      exists c :: c in CalleesIn(edges, nodes.vals, Roots(nodes, a)) && c.0.id in Roots(nodes, b)
  {
    var srcs, dsts := Roots(nodes, a), Roots(nodes, b);
    var callers, callees := CallersIn(edges, nodes.vals, dsts), CalleesIn(edges, nodes.vals, srcs);
    if e :| e in edges && e.src in srcs && e.dst in dsts {
      CallersInAre(edges, nodes.vals, dsts, nodes.vals[e.src], e.provenance);
      CalleesInAre(edges, nodes.vals, srcs, nodes.vals[e.dst], e.provenance);
      assert (nodes.vals[e.src], e.provenance) in callers && (nodes.vals[e.dst], e.provenance) in callees;
    }
    if c :| c in callers && c.0.id in srcs { CallersInAre(edges, nodes.vals, dsts, c.0, c.1); }
    if c :| c in callees && c.0.id in dsts { CalleesInAre(edges, nodes.vals, srcs, c.0, c.1); }
  }

  // --- the graph object ------------------------------------------------------------------

  datatype Subgraph = Missing | Found(nodes: set<Node>, edges: seq<Edge>)

  class RepoGraph {
    var nodes: Nodes
    var edges: seq<Edge>
    var byName: map<string, seq<Id>>

    /** The name index is either not built or agrees with the linear scan. */
    ghost predicate Valid()
      reads this
    {
      ValidNodes(nodes) && (byName == map[] || IndexAgrees())
    }

    ghost predicate IndexAgrees()
      requires nodes.Valid()
      reads this
    {
      forall s :: Indexed(byName, s) == Scan(nodes.keys, nodes.vals, s)
    }

    constructor (nodes: Nodes, edges: seq<Edge>)
      requires ValidNodes(nodes)
      ensures Valid() && this.nodes == nodes && this.edges == edges && byName == map[]
    {
      this.nodes, this.edges, byName := nodes, edges, map[];
    }

    method Reindex()
      requires ValidNodes(nodes)
      modifies this`byName
      ensures Valid() && IndexAgrees()
    {
      byName := map[];
      for i := 0 to |nodes.keys|
        invariant forall s :: Indexed(byName, s) == Scan(nodes.keys[..i], nodes.vals, s)
      {
        var nid := nodes.keys[i];
        var n := nodes.vals[nid];
        ghost var before := byName;
        FiledAgrees(nodes, i, before);
        byName := byName[n.name := Indexed(byName, n.name) + [nid]];
        if n.qualname != n.name {
          byName := byName[n.qualname := Indexed(byName, n.qualname) + [nid]];
        }
        assert byName == Filed(before, n, nid);
      }
      assert nodes.keys[..|nodes.keys|] == nodes.keys;
    }

    method Resolve(symbol: string) returns (ids: seq<Id>)
      requires Valid()
      modifies this`byName
      ensures Valid() && ids == ResolveIds(nodes, symbol)
    {
      if symbol in nodes.vals { return [symbol]; }
      if byName == map[] { Reindex(); }
      ids := Indexed(byName, symbol);
    }

    method CallersOf(symbol: string) returns (out: seq<(Node, Provenance)>)
      requires Valid()
      modifies this`byName
      ensures Valid() && out == CallersIn(edges, nodes.vals, Roots(nodes, symbol))
    {
      var found := Resolve(symbol);
      var targets := set i | i in found;
      out := [];
      for i := 0 to |edges|
        invariant out == CallersIn(edges[..i], nodes.vals, targets)
      {
        var e := edges[i];
        assert edges[..i + 1][..i] == edges[..i];
        if e.dst in targets && e.src in nodes.vals { out := out + [(nodes.vals[e.src], e.provenance)]; }
      }
      assert edges[..|edges|] == edges;
    }

    method CalleesOf(symbol: string) returns (out: seq<(Node, Provenance)>)
      requires Valid()
      modifies this`byName
      ensures Valid() && out == CalleesIn(edges, nodes.vals, Roots(nodes, symbol))
    {
      var found := Resolve(symbol);
      var srcs := set i | i in found;
      out := [];
      for i := 0 to |edges|
        invariant out == CalleesIn(edges[..i], nodes.vals, srcs)
      {
        var e := edges[i];
        assert edges[..i + 1][..i] == edges[..i];
        if e.src in srcs && e.dst in nodes.vals { out := out + [(nodes.vals[e.dst], e.provenance)]; }
      }
      assert edges[..|edges|] == edges;
    }

    method HasEdge(a: string, b: string) returns (yes: bool)
      requires Valid()
      modifies this`byName
      ensures Valid() && (yes <==> EdgeBetween(edges, Roots(nodes, a), Roots(nodes, b)))
    {
      var foundA := Resolve(a);
      var foundB := Resolve(b);
      var srcs, dsts := set i | i in foundA, set i | i in foundB;
      yes := exists e :: e in edges && e.src in srcs && e.dst in dsts;
    }

    method TransitiveCallers(symbol: string, maxDepth: int, includeAmbiguous: bool)
      returns (found: set<Node>)
      requires Valid()
      modifies this`byName
      ensures Valid()
      ensures var seen := CallersWithin(CallArcs(edges, includeAmbiguous), Roots(nodes, symbol),
                                        if maxDepth < 0 then 0 else maxDepth);
              found == set i | i in seen && i in nodes.vals :: nodes.vals[i]
      // in terms of the edges, for every node that is no root
      ensures !includeAmbiguous ==>
        forall i :: i in nodes.vals && i !in Roots(nodes, symbol) ==>
          (nodes.vals[i] in found <==>
            exists es: seq<Edge> :: LeadsTo(es, i, Roots(nodes, symbol)) && |es| <= maxDepth
              && forall e :: e in es ==> e in edges && e.provenance != Ambiguous)
      ensures includeAmbiguous ==>
        forall i :: i in nodes.vals && i !in Roots(nodes, symbol) ==>
          (nodes.vals[i] in found <==>
            exists es: seq<Edge> :: LeadsTo(es, i, Roots(nodes, symbol)) && |es| <= maxDepth
              && forall e :: e in es ==> e in edges)
    {
      hide CallersWithin, CallArcs, LeadsTo;
      var ids := Resolve(symbol);
      var seen := SearchCallers((set i | i in ids), maxDepth, includeAmbiguous);
      found := set i | i in seen && i in nodes.vals :: nodes.vals[i];
      FoundOnEdges(nodes, edges, Roots(nodes, symbol), includeAmbiguous, maxDepth, found);
    }

    /** The breadth-first search behind the roots. */
    method SearchCallers(roots: set<Id>, maxDepth: int, includeAmbiguous: bool) returns (seen: set<Id>)
      ensures seen == CallersWithin(CallArcs(edges, includeAmbiguous), roots, if maxDepth < 0 then 0 else maxDepth)
      ensures forall i :: i in seen <==>
        exists es: seq<Edge> :: LeadsTo(es, i, roots) && |es| <= maxDepth && es[|es| - 1].src !in roots
          && forall e :: e in es ==> e in edges && (includeAmbiguous || e.provenance != Ambiguous)
    {
      hide CallArcs, LeadsTo, CallersWithin, Into;
      ghost var arcs := CallArcs(edges, includeAmbiguous);
      NobodyYet(arcs, roots);
      seen := {};
      var frontier := roots;
      var depth := 0;
      while frontier != {} && depth < maxDepth
        decreases maxDepth - depth
        invariant 0 <= depth && (0 < depth ==> depth <= maxDepth)
        invariant seen == CallersWithin(arcs, roots, depth)
        invariant frontier == if depth == 0 then roots else seen - CallersWithin(arcs, roots, depth - 1)
      {
        var nxt := CallersOfFrontier(includeAmbiguous, seen, frontier);
        RoundAdds(arcs, roots, depth, seen, frontier);
        seen := seen + nxt;
        frontier := nxt;
        depth := depth + 1;
      }
      if frontier == {} { EmptyFrontierIsEnd(arcs, roots, depth, if maxDepth < depth then depth else maxDepth); }
      SearchOnEdges(edges, includeAmbiguous, roots, maxDepth);
    }

    /** One round: the edge loop. */
    method CallersOfFrontier(includeAmbiguous: bool, seen: set<Id>, frontier: set<Id>) returns (nxt: set<Id>)
      ensures nxt == Into(CallArcs(edges, includeAmbiguous), frontier) - seen - frontier
      ensures forall i ::
        i in nxt <==>
          (&& i !in seen && i !in frontier
           && exists e :: e in edges && e.src == i && e.dst in frontier && (includeAmbiguous || e.provenance != Ambiguous))
    {
      hide CallArcs, Into;
      NoEdgesYet(edges, includeAmbiguous, frontier);
      nxt := {};
      for i := 0 to |edges|
        invariant nxt == Into(CallArcs(edges[..i], includeAmbiguous), frontier) - seen - frontier
      {
        var e := edges[i];
        OneMoreEdge(edges, i, includeAmbiguous, frontier);
        if Usable(e, includeAmbiguous) && e.dst in frontier && e.src !in seen && e.src !in frontier {
          nxt := nxt + {e.src};
        }
      }
      assert edges[..|edges|] == edges;
      CallersBefore(edges, includeAmbiguous, frontier);
    }

    method GetSubgraph(symbol: string, depth: int) returns (g: Subgraph)
      requires Valid()
      modifies this`byName
      ensures Valid()
      ensures g.Missing? <==> Roots(nodes, symbol) == {}
      ensures g.Found? ==>
        var keep := Ball(BothWays(edges), Roots(nodes, symbol), if depth < 0 then 0 else depth);
        g.nodes == (set i | i in keep && i in nodes.vals :: nodes.vals[i])
        && g.edges == EdgesInside(edges, keep)
    {
      var ids := Resolve(symbol);
      var roots := set i | i in ids;
      if roots == {} { return Missing; }
      var keep := Around(roots, depth);
      var inside := KeptEdges(keep);
      return Found(set i | i in keep && i in nodes.vals :: nodes.vals[i], inside);
    }

    /** The search itself; it may stop early, when a round finds nobody new. */
    method Around(roots: set<Id>, depth: int) returns (keep: set<Id>)
      ensures keep == Ball(BothWays(edges), roots, if depth < 0 then 0 else depth)
    {
      ghost var arcs := BothWays(edges);
      keep := roots;
      var frontier, round := roots, 0;
      while round < depth
        invariant 0 <= round && (0 < round ==> round <= depth)
        invariant keep == Ball(arcs, roots, round)
        invariant frontier == if round == 0 then roots else keep - Ball(arcs, roots, round - 1)
      {
        var nxt := NeighboursOf(frontier);
        NeighboursSuffice(arcs, roots, round, frontier);
        nxt := nxt - keep;
        keep := keep + nxt;
        frontier := nxt;
        round := round + 1;
        if frontier == {} {
          NothingNew(arcs, roots, round, depth);
          return;
        }
      }
    }

    method NeighboursOf(frontier: set<Id>) returns (nxt: set<Id>)
      ensures nxt == Into(BothWays(edges), frontier)
    {
      hide BothWays, Into;
      NoEdgesYet(edges, false, frontier);
      nxt := {};
      for i := 0 to |edges|
        invariant nxt == Into(BothWays(edges[..i]), frontier)
      {
        var e := edges[i];
        OneMoreEdgeBothWays(edges, i, frontier);
        if e.src in frontier { nxt := nxt + {e.dst}; }
        if e.dst in frontier { nxt := nxt + {e.src}; }
      }
      assert edges[..|edges|] == edges;
    }

    method KeptEdges(keep: set<Id>) returns (out: seq<Edge>)
      ensures out == EdgesInside(edges, keep)
    {
      out := [];
      for i := 0 to |edges|
        invariant out == EdgesInside(edges[..i], keep)
      {
        assert edges[..i + 1][..i] == edges[..i];
        if edges[i].src in keep && edges[i].dst in keep { out := out + [edges[i]]; }
      }
      assert edges[..|edges|] == edges;
    }
  }

  function Indexed(index: map<string, seq<Id>>, s: string): seq<Id> {
    if s in index then index[s] else []
  }

  /** One node filed under its name and, when different, its qualname. */
  function Filed(index: map<string, seq<Id>>, n: Node, nid: Id): map<string, seq<Id>> {
    var once := index[n.name := Indexed(index, n.name) + [nid]];
    if n.qualname == n.name then once else once[n.qualname := Indexed(once, n.qualname) + [nid]]
  }

  lemma FiledAgrees(nodes: Nodes, i: nat, index: map<string, seq<Id>>)
    requires nodes.Valid() && i < |nodes.keys|
    requires forall s :: Indexed(index, s) == Scan(nodes.keys[..i], nodes.vals, s)
    ensures forall s :: Indexed(Filed(index, nodes.vals[nodes.keys[i]], nodes.keys[i]), s)
                     == Scan(nodes.keys[..i + 1], nodes.vals, s)
  {
    var n := nodes.vals[nodes.keys[i]];
    forall s
      ensures Indexed(Filed(index, n, nodes.keys[i]), s) == Scan(nodes.keys[..i + 1], nodes.vals, s)
    {
      ScanStep(nodes.keys, nodes.vals, i, s);
    }
  }

  lemma NoEdgesYet(edges: seq<Edge>, includeAmbiguous: bool, s: set<Id>)
    ensures Into(CallArcs(edges[..0], includeAmbiguous), s) == {} && Into(BothWays(edges[..0]), s) == {}
  {
  }

  lemma OneMoreEdge(edges: seq<Edge>, i: nat, includeAmbiguous: bool, s: set<Id>)
    requires i < |edges|
    ensures Into(CallArcs(edges[..i + 1], includeAmbiguous), s) == Into(CallArcs(edges[..i], includeAmbiguous), s)
      + if Usable(edges[i], includeAmbiguous) && edges[i].dst in s then {edges[i].src} else {}
  {
    var arcs := CallArcs(edges[..i], includeAmbiguous);
    assert edges[..i + 1][..i] == edges[..i];
    assert arcs + [] == arcs;
  }

  lemma OneMoreEdgeBothWays(edges: seq<Edge>, i: nat, s: set<Id>)
    requires i < |edges|
    ensures Into(BothWays(edges[..i + 1]), s) == Into(BothWays(edges[..i]), s)
      + (if edges[i].dst in s then {edges[i].src} else {}) + (if edges[i].src in s then {edges[i].dst} else {})
  {
    var arcs, e := BothWays(edges[..i]), edges[i];
    assert edges[..i + 1][..i] == edges[..i];
  }

  /** The newest callers are enough to look behind. */
  lemma RoundAdds(arcs: Arcs<Id>, roots: set<Id>, depth: nat, seen: set<Id>, frontier: set<Id>)
    requires seen == CallersWithin(arcs, roots, depth)
    requires frontier == if depth == 0 then roots else seen - CallersWithin(arcs, roots, depth - 1)
    ensures var nxt := Into(arcs, frontier) - seen - frontier;
      CallersWithin(arcs, roots, depth + 1) == seen + nxt
      && nxt == CallersWithin(arcs, roots, depth + 1) - seen
  {
    if depth == 1 {
      assert seen - {} == seen;
    } else if depth > 1 {
      NewestSuffice(arcs, DirectCallers(arcs, roots), depth - 1, frontier);
    }
  }

  /** What a round finds, it finds from the newest members alone. */
  lemma NewestSuffice(arcs: Arcs<Id>, s: set<Id>, k: nat, newest: set<Id>)
    requires k > 0 && newest == Ball(arcs, s, k) - Ball(arcs, s, k - 1)
    ensures Ball(arcs, s, k + 1) == Ball(arcs, s, k) + Into(arcs, newest) && newest <= Ball(arcs, s, k)
  {
    var keep, before := Ball(arcs, s, k), Ball(arcs, s, k - 1);
    assert keep == before + newest;
    IntoUnion(arcs, before, newest);
  }

  lemma NothingNew(arcs: Arcs<Id>, s: set<Id>, j: nat, k: nat)
    requires 0 < j <= k && Ball(arcs, s, j) - Ball(arcs, s, j - 1) == {}
    ensures Ball(arcs, s, k) == Ball(arcs, s, j)
  {
    NoneLeft(Ball(arcs, s, j - 1), Ball(arcs, s, j));
    BallEnd(arcs, s, j, k);
  }

  lemma NoneLeft(a: set<Id>, b: set<Id>)
    requires b - a == {}
    ensures b <= a
  {
    assert forall x :: x in b && x !in a ==> x in b - a;
  }

  lemma EmptyFrontierIsEnd(arcs: Arcs<Id>, roots: set<Id>, depth: nat, k: nat)
    requires depth <= k
    requires {} == if depth == 0 then roots
                   else CallersWithin(arcs, roots, depth) - CallersWithin(arcs, roots, depth - 1)
    ensures CallersWithin(arcs, roots, k) == CallersWithin(arcs, roots, depth)
  {
    var first := DirectCallers(arcs, roots);
    if depth <= 1 {
      IntoNone(arcs);
      assert first == {} by { assert depth == 1 ==> first - {} == first; }
      NoDirectCallers(arcs, roots, depth);
      NoDirectCallers(arcs, roots, k);
    } else {
      NothingNew(arcs, first, depth - 1, k - 1);
    }
  }

  lemma NeighboursSuffice(arcs: Arcs<Id>, roots: set<Id>, k: nat, frontier: set<Id>)
    requires frontier == if k == 0 then roots else Ball(arcs, roots, k) - Ball(arcs, roots, k - 1)
    ensures Ball(arcs, roots, k + 1) == Ball(arcs, roots, k) + Into(arcs, frontier)
  {
    if k > 0 { NewestSuffice(arcs, roots, k, frontier); }
  }
}
