/** The two expression visitors of the concretizing solver: `IndexFinder`,
    which gathers the index expressions of reads, and `SymbolicObjectFinder`,
    which lists the symbolic arrays a query reads, in order of discovery.

    Both are visitors: a visit of a node first calls the node's hook (here only
    reads have one) and then visits the node's children. A read's only child is
    its index; its update list is reached only where a hook walks it. The
    visitor's cache of visited nodes is left out: a node visited again adds
    nothing new to either finder's results. */
module Collectors {
  import opened Exprs

  // ---------------------------------------------------------------------------
  // IndexFinder: specification

  /** The index expressions `IndexFinder` records while visiting `e`: for every
      read it reaches, the read's index and the index of every write in the
      read's update list. Constant indices are recorded too. */
  function Indices(e: Expr): set<Expr>
    decreases e
  {
    match e
    case Constant(_, _) => {}
    case Read(ul, idx) => {idx} + NodeIndices(ul.nodes) + Indices(idx)
    case Extract(x, _, _) => Indices(x)
    case Eq(l, r) => Indices(l) + Indices(r)
    case Other(_, kids) => IndicesOfAll(kids)
  }

  function NodeIndices(nodes: seq<UpdateNode>): set<Expr> {
    set n | n in nodes :: n.index
  }

  function IndicesOfAll(es: seq<Expr>): set<Expr>
    decreases es
  {
    if es == [] then {} else IndicesOfAll(es[..|es| - 1]) + Indices(es[|es| - 1])
  }

  /** What `computeInitialValues` collects: the goal is visited, then every constraint. */
  function QueryIndices(q: Query): set<Expr> {
    Indices(q.expr) + IndicesOfAll(q.constraints)
  }

  /** The reads the visitor reaches from `e`: `e` itself if it is a read, and
      the reads below it, where a read's only child is its index. */
  function VisitedReads(e: Expr): set<Expr>
    decreases e
  {
    match e
    case Constant(_, _) => {}
    case Read(_, idx) => {e} + VisitedReads(idx)
    case Extract(x, _, _) => VisitedReads(x)
    case Eq(l, r) => VisitedReads(l) + VisitedReads(r)
    case Other(_, kids) => VisitedReadsOfAll(kids)
  }

  function VisitedReadsOfAll(es: seq<Expr>): set<Expr>
    decreases es
  {
    if es == [] then {} else VisitedReadsOfAll(es[..|es| - 1]) + VisitedReads(es[|es| - 1])
  }

  /** `x` is an index `IndexFinder::visitRead` records for the read `r`. */
  predicate IndexOfRead(x: Expr, r: Expr) {
    r.Read? && (x == r.index || x in NodeIndices(r.updates.nodes))
  }

  /** The indices collected from `e` are exactly the indices of the reads the
      visitor reaches and of those reads' writes. */
  lemma {:induction false} IndicesAreReadIndices(e: Expr)
    ensures forall x :: x in Indices(e) <==> exists r :: r in VisitedReads(e) && IndexOfRead(x, r)
    decreases e
  {
    match e
    case Constant(_, _) =>
    case Read(ul, idx) =>
      IndicesAreReadIndices(idx);
      assert IndexOfRead(idx, e);
      forall x | x in NodeIndices(ul.nodes) ensures IndexOfRead(x, e) { }
    case Extract(x, _, _) =>
      IndicesAreReadIndices(x);
    case Eq(l, r) =>
      IndicesAreReadIndices(l);
      IndicesAreReadIndices(r);
    case Other(_, kids) =>
      IndicesOfAllAreReadIndices(kids);
  }

  lemma {:induction false} IndicesOfAllAreReadIndices(es: seq<Expr>)
    ensures forall x :: x in IndicesOfAll(es) <==> exists r :: r in VisitedReadsOfAll(es) && IndexOfRead(x, r)
    decreases es
  {
    if es != [] {
      IndicesOfAllAreReadIndices(es[..|es| - 1]);
      IndicesAreReadIndices(es[|es| - 1]);
    }
  }

  // ---------------------------------------------------------------------------
  // SymbolicObjectFinder: specification

  /** The list `SymbolicObjectFinder` holds after visiting `e`, starting from
      `acc`: for each read, the writes' indices and values are visited first
      (head of the update list first), then the read's root is appended when it
      is symbolic and not yet listed, then the read's index is visited. */
  function CollectObjects(acc: seq<Array>, e: Expr): (r: seq<Array>)
    ensures acc <= r
    ensures Distinct(acc) ==> Distinct(r)
    ensures forall i :: |acc| <= i < |r| ==> r[i].isSymbolic
    decreases e
  {
    match e
    case Constant(_, _) => acc
    case Read(ul, idx) => CollectObjects(AddRoot(CollectNodes(acc, ul.nodes), ul.root), idx)
    case Extract(x, _, _) => CollectObjects(acc, x)
    case Eq(l, r) => CollectObjects(CollectObjects(acc, l), r)
    case Other(_, kids) => CollectAll(acc, kids)
  }

  /** `results.insert(root).second` guarding `objects.push_back(root)`. */
  function AddRoot(acc: seq<Array>, root: Array): (r: seq<Array>)
    ensures acc <= r
    ensures Distinct(acc) ==> Distinct(r)
    ensures forall i :: |acc| <= i < |r| ==> r[i].isSymbolic
  {
    if root.isSymbolic && root !in acc then acc + [root] else acc
  }

  function CollectNodes(acc: seq<Array>, nodes: seq<UpdateNode>): (r: seq<Array>)
    ensures acc <= r
    ensures Distinct(acc) ==> Distinct(r)
    ensures forall i :: |acc| <= i < |r| ==> r[i].isSymbolic
    decreases nodes
  {
    if nodes == [] then acc
    else
      var n := nodes[|nodes| - 1];
      assert n.index < n && n.value < n;
      CollectObjects(CollectObjects(CollectNodes(acc, nodes[..|nodes| - 1]), n.index), n.value)
  }

  function CollectAll(acc: seq<Array>, es: seq<Expr>): (r: seq<Array>)
    ensures acc <= r
    ensures Distinct(acc) ==> Distinct(r)
    ensures forall i :: |acc| <= i < |r| ==> r[i].isSymbolic
    decreases es
  {
    if es == [] then acc else CollectObjects(CollectAll(acc, es[..|es| - 1]), es[|es| - 1])
  }

  /** What `computeInitialValues` collects into `usedObjects`: goal first, then every constraint. */
  function QueryObjects(q: Query): seq<Array> {
    CollectAll(CollectObjects([], q.expr), q.constraints)
  }

  // ---------------------------------------------------------------------------
  // The arrays a traversal reaches, as a set

  /** Every root array of a read reachable from `e`, through read indices and
      through the indices and values of update lists. */
  function ArraysOf(e: Expr): set<Array>
    decreases e
  {
    match e
    case Constant(_, _) => {}
    case Read(ul, idx) => NodeArrays(ul.nodes) + {ul.root} + ArraysOf(idx)
    case Extract(x, _, _) => ArraysOf(x)
    case Eq(l, r) => ArraysOf(l) + ArraysOf(r)
    case Other(_, kids) => ArraysOfAll(kids)
  }

  function NodeArrays(nodes: seq<UpdateNode>): set<Array>
    decreases nodes
  {
    if nodes == [] then {}
    else
      var n := nodes[|nodes| - 1];
      assert n.index < n && n.value < n;
      NodeArrays(nodes[..|nodes| - 1]) + ArraysOf(n.index) + ArraysOf(n.value)
  }

  function ArraysOfAll(es: seq<Expr>): set<Array>
    decreases es
  {
    if es == [] then {} else ArraysOfAll(es[..|es| - 1]) + ArraysOf(es[|es| - 1])
  }

  /** The list after visiting `e` holds exactly what it held before plus every
      symbolic array reachable from `e`. */
  lemma {:induction false} CollectObjectsExactly(acc: seq<Array>, e: Expr)
    ensures forall x :: x in CollectObjects(acc, e) <==> x in acc || (x in ArraysOf(e) && x.isSymbolic)
    decreases e
  {
    match e
    case Constant(_, _) =>
    case Read(ul, idx) =>
      CollectNodesExactly(acc, ul.nodes);
      CollectObjectsExactly(AddRoot(CollectNodes(acc, ul.nodes), ul.root), idx);
    case Extract(x, _, _) =>
      CollectObjectsExactly(acc, x);
    case Eq(l, r) =>
      CollectObjectsExactly(acc, l);
      CollectObjectsExactly(CollectObjects(acc, l), r);
    case Other(_, kids) =>
      CollectAllExactly(acc, kids);
  }

  lemma {:induction false} CollectNodesExactly(acc: seq<Array>, nodes: seq<UpdateNode>)
    ensures forall x :: x in CollectNodes(acc, nodes) <==> x in acc || (x in NodeArrays(nodes) && x.isSymbolic)
    decreases nodes
  {
    if nodes != [] {
      var n := nodes[|nodes| - 1];
      assert n.index < n && n.value < n;
      var a := CollectNodes(acc, nodes[..|nodes| - 1]);
      CollectNodesExactly(acc, nodes[..|nodes| - 1]);
      CollectObjectsExactly(a, n.index);
      CollectObjectsExactly(CollectObjects(a, n.index), n.value);
    }
  }

  lemma {:induction false} CollectAllExactly(acc: seq<Array>, es: seq<Expr>)
    ensures forall x :: x in CollectAll(acc, es) <==> x in acc || (x in ArraysOfAll(es) && x.isSymbolic)
    decreases es
  {
    if es != [] {
      CollectAllExactly(acc, es[..|es| - 1]);
      CollectObjectsExactly(CollectAll(acc, es[..|es| - 1]), es[|es| - 1]);
    }
  }

  /** A query's object list is duplicate-free, holds only symbolic arrays, and
      holds every symbolic array the query reads. */
  lemma QueryObjectsExactly(q: Query)
    ensures Distinct(QueryObjects(q))
    ensures forall x :: x in QueryObjects(q) <==> x.isSymbolic && (x in ArraysOf(q.expr) || x in ArraysOfAll(q.constraints))
  {
    CollectObjectsExactly([], q.expr);
    CollectAllExactly(CollectObjects([], q.expr), q.constraints);
  }

  /** `root` is listed at position `p`, after every symbolic array of `earlier`. */
  predicate ListedAfterAt(r: seq<Array>, root: Array, earlier: set<Array>, p: int) {
    0 <= p < |r| && r[p] == root && forall y :: y in earlier && y.isSymbolic ==> y in r[..p]
  }

  ghost predicate ListedAfter(r: seq<Array>, root: Array, earlier: set<Array>) {
    exists p :: ListedAfterAt(r, root, earlier, p)
  }

  /** Arrays read inside a read's update list are listed before the read's own
      root, when the root is new and not itself read inside the update list. */
  lemma NodeArraysBeforeRoot(acc: seq<Array>, ul: UpdateList, idx: Expr)
    requires ul.root.isSymbolic && ul.root !in acc && ul.root !in NodeArrays(ul.nodes)
    ensures ListedAfter(CollectObjects(acc, Read(ul, idx)), ul.root, NodeArrays(ul.nodes))
  {
    var a := CollectNodes(acc, ul.nodes);
    CollectNodesExactly(acc, ul.nodes);
    var r := CollectObjects(acc, Read(ul, idx));
    assert AddRoot(a, ul.root) == a + [ul.root];
    assert r == CollectObjects(a + [ul.root], idx);
    assert a + [ul.root] <= r;
    var p := |a|;
    assert r[p] == ul.root;
    assert r[..p] == a;
    forall y | y in NodeArrays(ul.nodes) && y.isSymbolic ensures y in r[..p] { }
    assert ListedAfterAt(r, ul.root, NodeArrays(ul.nodes), p);
  }

  // ---------------------------------------------------------------------------
  // The visitors

  /** `IndexFinder`: a visitor whose read hook inserts indices into `results`. */
  class IndexFinder {
    var results: set<Expr>

    constructor ()
      ensures results == {}
    {
      results := {};
    }

    /** `visit(e)`: the read hook on reads, then the children. */
    method Visit(e: Expr)
      modifies this
      ensures results == old(results) + Indices(e)
      decreases e, 1
    {
      match e
      case Constant(_, _) =>
      case Read(ul, idx) =>
        VisitRead(e);
        Visit(idx);
      case Extract(x, _, _) =>
        Visit(x);
      case Eq(l, r) =>
        Visit(l);
        Visit(r);
      case Other(_, kids) =>
        for i := 0 to |kids|
          invariant results == old(results) + IndicesOfAll(kids[..i])
        {
          assert kids[..i + 1][..i] == kids[..i];
          Visit(kids[i]);
        }
        assert kids[..|kids|] == kids;
    }

    /** `visitRead`: records the read's index and every write's index. */
    method VisitRead(re: Expr)
      requires re.Read?
      modifies this
      ensures results == old(results) + {re.index} + NodeIndices(re.updates.nodes)
      decreases re, 0
    {
      results := results + {re.index};
      var nodes := re.updates.nodes;
      for i := 0 to |nodes|
        invariant results == old(results) + {re.index} + NodeIndices(nodes[..i])
      {
        assert NodeIndices(nodes[..i + 1]) == NodeIndices(nodes[..i]) + {nodes[i].index} by {
          assert nodes[..i + 1] == nodes[..i] + [nodes[i]];
        }
        results := results + {nodes[i].index};
      }
      assert nodes[..|nodes|] == nodes;
    }
  }

  /** `SymbolicObjectFinder`: a visitor whose read hook appends newly seen
      symbolic roots to `objects`, using `results` as the seen set. */
  class SymbolicObjectFinder {
    var results: set<Array>
    var objects: seq<Array>

    ghost predicate Valid()
      reads this
    {
      results == Elems(objects) && Distinct(objects)
    }

    constructor ()
      ensures Valid() && objects == []
    {
      results := {};
      objects := [];
    }

    method Visit(e: Expr)
      requires Valid()
      modifies this
      ensures Valid() && objects == CollectObjects(old(objects), e)
      decreases e, 1
    {
      match e
      case Constant(_, _) =>
      case Read(ul, idx) =>
        VisitRead(ul);
        Visit(idx);
      case Extract(x, _, _) =>
        Visit(x);
      case Eq(l, r) =>
        Visit(l);
        Visit(r);
      case Other(_, kids) =>
        for i := 0 to |kids|
          invariant Valid() && objects == CollectAll(old(objects), kids[..i])
        {
          assert kids[..i + 1][..i] == kids[..i];
          Visit(kids[i]);
        }
        assert kids[..|kids|] == kids;
    }

    /** `visitRead`: visits every write's index and value, then lists the root. */
    method VisitRead(ul: UpdateList)
      requires Valid()
      modifies this
      ensures Valid() && objects == AddRoot(CollectNodes(old(objects), ul.nodes), ul.root)
      decreases ul, 0
    {
      var nodes := ul.nodes;
      for i := 0 to |nodes|
        invariant Valid() && objects == CollectNodes(old(objects), nodes[..i])
      {
        assert nodes[..i + 1][..i] == nodes[..i];
        var n := nodes[i];
        assert n.index < n && n.value < n;
        Visit(n.index);
        Visit(n.value);
      }
      assert nodes[..|nodes|] == nodes;
      if ul.root.isSymbolic && ul.root !in results {
        results := results + {ul.root};
        objects := objects + [ul.root];
      }
    }
  }
}
