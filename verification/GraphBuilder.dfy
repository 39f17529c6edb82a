/**
  rca_agent/graph.py, the visitor and `build_graph_from_sources`: from syntax trees to the call
  graph.

  Trees are cut down to what the visitor looks at.  Every node lists its children in visiting
  order; decorators, bases and defaults are children like any other.
 */
module GraphBuilder {
  import opened Basics
  import opened CodeGraph

  datatype Callee = ByName(id: string) | ByAttr(attr: string, onSelf: bool) | Computed

  datatype Ast =
    | ClassDef(name: string, line: int, children: seq<Ast>)
    | FuncDef(name: string, line: int, children: seq<Ast>)
    | Call(callee: Callee, children: seq<Ast>)
    | Other(children: seq<Ast>)

  /** One file; `tree` is `None` when it does not parse. */
  datatype Source = Source(path: string, tree: Option<Ast>)

  // --- where a tree node sits ------------------------------------------------------------

  datatype Frame = InClass(name: string) | InFunc(name: string)

  function MakeId(file: string, qual: string): Id {
    file + "::" + qual
  }

  function Dotted(names: seq<string>, name: string): string {
    if names == [] then name else names[0] + "." + Dotted(names[1..], name)
  }

  function ClassesOf(chain: seq<Frame>): seq<string> {
    if chain == [] then []
    else ClassesOf(chain[..|chain| - 1])
         + match chain[|chain| - 1] { case InClass(c) => [c] case InFunc(_) => [] }
  }

  function QualIn(chain: seq<Frame>, name: string): string {
    Dotted(ClassesOf(chain), name)
  }

  /** The innermost enclosing function of a place in the tree, if there is one. */
  function Enclosing(file: string, chain: seq<Frame>): Option<Id> {
    if chain == [] then None
    else
      var outer := chain[..|chain| - 1];
      match chain[|chain| - 1]
      case InFunc(f) => Some(MakeId(file, QualIn(outer, f)))
      case InClass(_) => Enclosing(file, outer)
  }

  /** One recorded call: who makes it, the bare name called, and whether it is on `self`. */
  datatype RawCall = RawCall(caller: Option<Id>, name: string, isSelf: bool)

  function NodeFor(file: string, chain: seq<Frame>, name: string, isClass: bool, line: int): Node {
    var qual := QualIn(chain, name);
    Node(MakeId(file, qual), name, qual,
         if isClass then Class else if ClassesOf(chain) != [] then Method else Function, file, line)
  }

  function RawFor(file: string, chain: seq<Frame>, callee: Callee): seq<RawCall> {
    match callee
    case ByName(id) => [RawCall(Enclosing(file, chain), id, false)]
    case ByAttr(attr, onSelf) => [RawCall(Enclosing(file, chain), attr, onSelf)]
    case Computed => []
  }

  /** The definitions around the children of `t`. */
  function Below(t: Ast, chain: seq<Frame>): seq<Frame> {
    match t
    case ClassDef(n, _, _) => chain + [InClass(n)]
    case FuncDef(n, _, _) => chain + [InFunc(n)]
    case _ => chain
  }

  /** Every definition in the tree, in visiting order. */
  function NodesIn(t: Ast, file: string, chain: seq<Frame>): seq<Node>
    decreases t, 1
  {
    HeadNodes(t, file, chain) + NodesInAll(t.children, file, Below(t, chain))
  }

  function HeadNodes(t: Ast, file: string, chain: seq<Frame>): seq<Node> {
    match t
    case ClassDef(n, l, _) => [NodeFor(file, chain, n, true, l)]
    case FuncDef(n, l, _) => [NodeFor(file, chain, n, false, l)]
    case _ => []
  }

  function NodesInAll(ts: seq<Ast>, file: string, chain: seq<Frame>): seq<Node>
    decreases ts, 0
  {
    if ts == [] then [] else NodesInAll(ts[..|ts| - 1], file, chain) + NodesIn(ts[|ts| - 1], file, chain)
  }

  /** Every call in the tree, in visiting order, under its innermost enclosing function. */
  function CallsIn(t: Ast, file: string, chain: seq<Frame>): seq<RawCall>
    decreases t, 1
  {
    HeadCalls(t, file, chain) + CallsInAll(t.children, file, Below(t, chain))
  }

  function HeadCalls(t: Ast, file: string, chain: seq<Frame>): seq<RawCall> {
    if t.Call? then RawFor(file, chain, t.callee) else []
  }

  function CallsInAll(ts: seq<Ast>, file: string, chain: seq<Frame>): seq<RawCall>
    decreases ts, 0
  {
    if ts == [] then [] else CallsInAll(ts[..|ts| - 1], file, chain) + CallsIn(ts[|ts| - 1], file, chain)
  }

  lemma ThenChildren(ns: seq<Node>, cs: seq<RawCall>, t: Ast, file: string, chain: seq<Frame>)
    ensures ns + NodesIn(t, file, chain)
         == (ns + HeadNodes(t, file, chain)) + NodesInAll(t.children, file, Below(t, chain))
    ensures cs + CallsIn(t, file, chain)
         == (cs + HeadCalls(t, file, chain)) + CallsInAll(t.children, file, Below(t, chain))
    ensures HeadNodes(t, file, chain) == [] ==> ns + HeadNodes(t, file, chain) == ns
    ensures HeadCalls(t, file, chain) == [] ==> cs + HeadCalls(t, file, chain) == cs
  {
    ConcatAssoc(ns, HeadNodes(t, file, chain), NodesInAll(t.children, file, Below(t, chain)));
    ConcatAssoc(cs, HeadCalls(t, file, chain), CallsInAll(t.children, file, Below(t, chain)));
  }

  lemma OneMoreChild(ts: seq<Ast>, i: nat, file: string, chain: seq<Frame>)
    requires i < |ts|
    ensures NodesInAll(ts[..i + 1], file, chain) == NodesInAll(ts[..i], file, chain) + NodesIn(ts[i], file, chain)
    ensures CallsInAll(ts[..i + 1], file, chain) == CallsInAll(ts[..i], file, chain) + CallsIn(ts[i], file, chain)
  {
    assert ts[..i + 1][..i] == ts[..i];
  }

  /** `nodes[n.id] = n` for each definition in turn. */
  function PutAll(nodes: Nodes, ns: seq<Node>): Nodes {
    if ns == [] then nodes
    else
      var n := ns[|ns| - 1];
      PutAll(nodes, ns[..|ns| - 1]).Put(n.id, n)
  }

  // --- the visitor -------------------------------------------------------------------------

  /** The ids of the enclosing functions, outermost first: what `_funcs` should hold. */
  function FuncStack(file: string, chain: seq<Frame>): seq<Id> {
    if chain == [] then []
    else
      var outer := chain[..|chain| - 1];
      FuncStack(file, outer)
      + match chain[|chain| - 1] { case InFunc(f) => [MakeId(file, QualIn(outer, f))] case InClass(_) => [] }
  }

  lemma {:induction false} TopOfStack(file: string, chain: seq<Frame>)
    ensures var s := FuncStack(file, chain);
            Enclosing(file, chain) == if s == [] then None else Some(s[|s| - 1])
    decreases chain
  {
    if chain != [] { TopOfStack(file, chain[..|chain| - 1]); }
  }

  class FileVisitor {
    const file: string
    var classes: seq<string>
    var funcs: seq<Id>
    var nodes: Nodes
    var calls: seq<RawCall>
    ghost var defs: seq<Node>    // the definitions visited so far

    constructor (file: string)
      ensures this.file == file && At([]) && Recorded() && defs == [] && calls == []
    {
      this.file := file;
      classes, funcs, nodes, calls := [], [], EmptyDict(), [];
      defs := [];
    }

    /** The stacks describe `chain`. */
    ghost predicate At(chain: seq<Frame>)
      reads this`classes, this`funcs
    {
      classes == ClassesOf(chain) && funcs == FuncStack(file, chain)
    }

    /** The node table holds the visited definitions, the last one of an id winning. */
    ghost predicate Recorded()
      reads this`nodes, this`defs
    {
      nodes == PutAll(EmptyDict(), defs)
    }

    /** Exactly these were recorded, and both stacks are as they were. */
    twostate predicate Adds(ns: seq<Node>, cs: seq<RawCall>)
      reads this
    {
      && Recorded() && classes == old(classes) && funcs == old(funcs)
      && defs == old(defs) + ns && calls == old(calls) + cs
    }

    /**
      Visiting a tree records its definitions and its calls, each under its innermost enclosing
      function, and leaves both stacks as they were.
     */
    method Visit(t: Ast, ghost chain: seq<Frame>)
      requires At(chain) && Recorded()
      modifies this
      ensures Adds(NodesIn(t, file, chain), CallsIn(t, file, chain))
      decreases t, 2
    {
      match t {
        case ClassDef(_, _, _) => VisitClassDef(t, chain);
        case FuncDef(_, _, _) => VisitFunc(t, chain);
        case Call(_, _) => VisitCall(t, chain);
        case Other(children) => VisitAll(children, chain);
      }
    }

    method VisitClassDef(t: Ast, ghost chain: seq<Frame>)
      requires t.ClassDef? && At(chain) && Recorded()
      modifies this
      ensures Adds(NodesIn(t, file, chain), CallsIn(t, file, chain))
      decreases t, 1
    {
      AddNode(t.name, true, t.line, chain);
      PushClass(t.name, chain);
      VisitAll(t.children, chain + [InClass(t.name)]);
      ThenChildren(old(defs), old(calls), t, file, chain);
      classes := classes[..|classes| - 1];
    }

    method VisitFunc(t: Ast, ghost chain: seq<Frame>)
      requires t.FuncDef? && At(chain) && Recorded()
      modifies this
      ensures Adds(NodesIn(t, file, chain), CallsIn(t, file, chain))
      decreases t, 1
    {
      AddNode(t.name, false, t.line, chain);
      PushFunc(t.name, chain);
      VisitAll(t.children, chain + [InFunc(t.name)]);
      ThenChildren(old(defs), old(calls), t, file, chain);
      funcs := funcs[..|funcs| - 1];
    }

    method VisitCall(t: Ast, ghost chain: seq<Frame>)
      requires t.Call? && At(chain) && Recorded()
      modifies this
      ensures Adds(NodesIn(t, file, chain), CallsIn(t, file, chain))
      decreases t, 1
    {
      AddCall(t.callee, chain);
      VisitAll(t.children, chain);
      ThenChildren(old(defs), old(calls), t, file, chain);
    }

    /** `generic_visit` */
    method VisitAll(ts: seq<Ast>, ghost chain: seq<Frame>)
      requires At(chain) && Recorded()
      modifies this
      ensures Adds(NodesInAll(ts, file, chain), CallsInAll(ts, file, chain))
      decreases ts, 0
    {
      for i := 0 to |ts|
        invariant Adds(NodesInAll(ts[..i], file, chain), CallsInAll(ts[..i], file, chain))
      {
        OneMoreChild(ts, i, file, chain);
        Visit(ts[i], chain);
        ConcatAssoc(old(defs), NodesInAll(ts[..i], file, chain), NodesIn(ts[i], file, chain));
        ConcatAssoc(old(calls), CallsInAll(ts[..i], file, chain), CallsIn(ts[i], file, chain));
      }
      assert ts[..|ts|] == ts;
    }

    method PushClass(name: string, ghost chain: seq<Frame>)
      requires At(chain)
      modifies this`classes
      ensures At(chain + [InClass(name)]) && classes == old(classes) + [name]
    {
      assert (chain + [InClass(name)])[..|chain|] == chain;
      classes := classes + [name];
    }

    method PushFunc(name: string, ghost chain: seq<Frame>)
      requires At(chain)
      modifies this`funcs
      ensures At(chain + [InFunc(name)]) && |funcs| > 0 && funcs[..|funcs| - 1] == old(funcs)
    {
      assert (chain + [InFunc(name)])[..|chain|] == chain;
      funcs := funcs + [MakeId(file, Dotted(classes, name))];
    }

    method AddNode(name: string, isClass: bool, line: int, ghost chain: seq<Frame>)
      requires At(chain) && Recorded()
      modifies this`nodes, this`defs
      ensures Recorded() && defs == old(defs) + [NodeFor(file, chain, name, isClass, line)]
    {
      var qual := Dotted(classes, name);
      var nid := MakeId(file, qual);
      var kind := if isClass then Class else if classes != [] then Method else Function;
      var n := Node(nid, name, qual, kind, file, line);
      nodes := nodes.Put(nid, n);
      defs := defs + [n];
      assert defs[..|defs| - 1] == old(defs);
    }

    method AddCall(callee: Callee, ghost chain: seq<Frame>)
      requires At(chain)
      modifies this`calls
      ensures calls == old(calls) + RawFor(file, chain, callee)
    {
      TopOfStack(file, chain);
      var caller := if funcs == [] then None else Some(funcs[|funcs| - 1]);
      match callee {
        case ByName(id) => calls := calls + [RawCall(caller, id, false)];
        case ByAttr(attr, onSelf) => calls := calls + [RawCall(caller, attr, onSelf)];
        case Computed =>
      }
    }
  }
}
