/**
  A stand-in for the `toposort` library's `array(nodes, edges)` entry point.

  The library is foreign code, so this module does not reproduce its depth-first
  traversal or its tie-breaking. It fixes one deterministic algorithm (repeatedly
  take the first node that has no parent among the remaining nodes) and proves
  the contract the plugin relies on: a successful result is a permutation of the
  nodes in which every parent precedes its child, and the sort fails exactly when
  no such order exists, in particular whenever the edges contain a cycle.
*/
module TopoSort {
  import opened Wrappers

  /** A dependency: `parent` must be listed before `child`. */
  datatype Edge<T> = Edge(parent: T, child: T)

  /** The error the library throws when the edges form a cycle. */
  datatype CyclicDependency = CyclicDependency

  /** Every occurrence of an edge's parent in `order` comes before every occurrence of its child. */
  ghost predicate Respects<T>(order: seq<T>, edges: seq<Edge<T>>) {
    forall e, i, j :: e in edges && 0 <= i < |order| && 0 <= j < |order| && order[i] == e.parent && order[j] == e.child ==> i < j
  }

  /** `order` lists exactly the nodes (with multiplicity) and respects every edge. */
  ghost predicate IsTopoOrder<T>(order: seq<T>, nodes: seq<T>, edges: seq<Edge<T>>) {
    multiset(order) == multiset(nodes) && Respects(order, edges)
  }

  /** `path` is a closed walk along edges through nodes of the graph. */
  ghost predicate IsCycle<T>(path: seq<T>, nodes: seq<T>, edges: seq<Edge<T>>) {
    && |path| >= 2
    && path[0] == path[|path| - 1]
    && (forall k :: 0 <= k < |path| ==> path[k] in nodes)
    && (forall k :: 0 <= k < |path| - 1 ==> Edge(path[k], path[k + 1]) in edges)
  }

  /** Some edge leads into `n` from one of `nodes`. */
  predicate HasParentAmong<T(==)>(n: T, nodes: seq<T>, edges: seq<Edge<T>>) {
    exists e :: e in edges && e.child == n && e.parent in nodes
  }

  /** The first index at or after `from` whose node has no parent among `nodes`. */
  function FirstSource<T(==)>(nodes: seq<T>, edges: seq<Edge<T>>, from: nat): (r: Option<nat>)
    requires from <= |nodes|
    ensures r.Some? ==> from <= r.value < |nodes| && !HasParentAmong(nodes[r.value], nodes, edges)
    ensures r.Some? ==> forall k :: from <= k < r.value ==> HasParentAmong(nodes[k], nodes, edges)
    ensures r.None? ==> forall k :: from <= k < |nodes| ==> HasParentAmong(nodes[k], nodes, edges)
    decreases |nodes| - from
  {
    if from == |nodes| then None
    else if !HasParentAmong(nodes[from], nodes, edges) then Some(from)
    else FirstSource(nodes, edges, from + 1)
  }

  /** Orders `nodes` so that parents precede children, or reports a cycle. */
  function Sort<T(==)>(nodes: seq<T>, edges: seq<Edge<T>>): (r: Result<seq<T>, CyclicDependency>)
    decreases |nodes|
  {
    if nodes == [] then Ok([])
    else
      match FirstSource(nodes, edges, 0)
      case None => Err(CyclicDependency)
      case Some(i) =>
        match Sort(nodes[..i] + nodes[i + 1..], edges)
        case Ok(rest) => Ok([nodes[i]] + rest)
        case Err(e) => Err(e)
  }

  /** Putting a node with no parent among `nodes` in front of a respecting order of the rest respects the edges. */
  lemma PrependSource<T>(nodes: seq<T>, edges: seq<Edge<T>>, i: nat, tail: seq<T>)
    requires i < |nodes| && !HasParentAmong(nodes[i], nodes, edges)
    requires IsTopoOrder(tail, nodes[..i] + nodes[i + 1..], edges)
    ensures IsTopoOrder([nodes[i]] + tail, nodes, edges)
  {
    var x := nodes[i];
    var order := [x] + tail;
    assert nodes == nodes[..i] + [x] + nodes[i + 1..];
    assert multiset(order) == multiset(nodes);
    forall e, a, b | e in edges && 0 <= a < |order| && 0 <= b < |order| && order[a] == e.parent && order[b] == e.child
      ensures a < b
    {
      assert b != 0 by {
        assert order[a] in multiset(order);
      }
      if a != 0 {
        assert tail[a - 1] == e.parent && tail[b - 1] == e.child;
      }
    }
  }

  /** A successful sort is a permutation of the nodes that respects every edge. */
  lemma {:induction false} SortSound<T>(nodes: seq<T>, edges: seq<Edge<T>>)
    ensures Sort(nodes, edges).Ok? ==> IsTopoOrder(Sort(nodes, edges).value, nodes, edges)
    decreases |nodes|
  {
    if nodes != [] && FirstSource(nodes, edges, 0).Some? {
      var i := FirstSource(nodes, edges, 0).value;
      var rest := nodes[..i] + nodes[i + 1..];
      SortSound(rest, edges);
      if Sort(rest, edges).Ok? {
        PrependSource(nodes, edges, i, Sort(rest, edges).value);
      }
    }
  }

  /** Dropping one element from an order keeps it respecting the edges. */
  lemma RemoveOneRespects<T>(order: seq<T>, edges: seq<Edge<T>>, k: nat)
    requires k < |order| && Respects(order, edges)
    ensures Respects(order[..k] + order[k + 1..], edges)
  {
    var o := order[..k] + order[k + 1..];
    forall e, a, b | e in edges && 0 <= a < |o| && 0 <= b < |o| && o[a] == e.parent && o[b] == e.child
      ensures a < b
    {
      var a' := if a < k then a else a + 1;
      var b' := if b < k then b else b + 1;
      assert order[a'] == o[a] && order[b'] == o[b];
    }
  }

  /** The first element of a respecting order of non-empty nodes has no parent among them. */
  lemma TopoOrderStartsWithSource<T>(order: seq<T>, nodes: seq<T>, edges: seq<Edge<T>>)
    requires IsTopoOrder(order, nodes, edges) && nodes != []
    ensures |order| > 0 && order[0] in nodes && !HasParentAmong(order[0], nodes, edges)
  {
    assert nodes[0] in multiset(order);
    assert order[0] in multiset(nodes);
    forall e | e in edges && e.child == order[0]
      ensures e.parent !in nodes
    {
      assert e.parent in nodes ==> e.parent in multiset(order);
    }
  }

  /** Removing one copy of a node from both sides keeps a respecting order respecting. */
  lemma RemoveFromBoth<T>(order: seq<T>, nodes: seq<T>, edges: seq<Edge<T>>, i: nat) returns (order': seq<T>)
    requires IsTopoOrder(order, nodes, edges) && i < |nodes|
    ensures IsTopoOrder(order', nodes[..i] + nodes[i + 1..], edges)
  {
    var x := nodes[i];
    assert nodes == nodes[..i] + [x] + nodes[i + 1..];
    assert x in multiset(order);
    var k :| 0 <= k < |order| && order[k] == x;
    order' := order[..k] + order[k + 1..];
    assert order == order[..k] + [x] + order[k + 1..];
    calc {
      multiset(order');
      multiset(order[..k]) + multiset(order[k + 1..]);
      multiset(order) - multiset{x};
      multiset(nodes) - multiset{x};
      multiset(nodes[..i]) + multiset(nodes[i + 1..]);
      multiset(nodes[..i] + nodes[i + 1..]);
    }
    RemoveOneRespects(order, edges, k);
  }

  /** Whenever some respecting order exists, the sort succeeds. */
  lemma {:induction false} SortComplete<T>(nodes: seq<T>, edges: seq<Edge<T>>, order: seq<T>)
    requires IsTopoOrder(order, nodes, edges)
    ensures Sort(nodes, edges).Ok?
    decreases |nodes|
  {
    if nodes != [] {
      TopoOrderStartsWithSource(order, nodes, edges);
      var s :| 0 <= s < |nodes| && nodes[s] == order[0];
      assert FirstSource(nodes, edges, 0).Some?;
      var i := FirstSource(nodes, edges, 0).value;
      var order' := RemoveFromBoth(order, nodes, edges, i);
      SortComplete(nodes[..i] + nodes[i + 1..], edges, order');
    }
  }

  /** Some order of `nodes` respects every edge. */
  ghost predicate Orderable<T(!new)>(nodes: seq<T>, edges: seq<Edge<T>>) {
    exists order :: IsTopoOrder(order, nodes, edges)
  }

  /** The sort fails exactly when the nodes admit no order that respects the edges. */
  lemma SortFailsIffNoOrder<T(!new)>(nodes: seq<T>, edges: seq<Edge<T>>)
    ensures Sort(nodes, edges).Ok? ==> IsTopoOrder(Sort(nodes, edges).value, nodes, edges)
    ensures Sort(nodes, edges).Err? <==> !Orderable(nodes, edges)
  {
    SortSound(nodes, edges);
    if Sort(nodes, edges).Ok? {
      assert IsTopoOrder(Sort(nodes, edges).value, nodes, edges);
    }
    forall order | IsTopoOrder(order, nodes, edges)
      ensures Sort(nodes, edges).Ok?
    {
      SortComplete(nodes, edges, order);
    }
  }

  /** Along a walk of edges, positions in a respecting order strictly increase. */
  lemma {:induction false} WalkAscends<T>(order: seq<T>, edges: seq<Edge<T>>, path: seq<T>, i: int, j: int)
    requires Respects(order, edges)
    requires |path| >= 2
    requires forall k :: 0 <= k < |path| ==> path[k] in order
    requires forall k :: 0 <= k < |path| - 1 ==> Edge(path[k], path[k + 1]) in edges
    requires 0 <= i < |order| && order[i] == path[0]
    requires 0 <= j < |order| && order[j] == path[|path| - 1]
    ensures i < j
    decreases |path|
  {
    assert Edge(path[0], path[1]) in edges;
    if |path| > 2 {
      assert path[1] in order;
      var m :| 0 <= m < |order| && order[m] == path[1];
      WalkAscends(order, edges, path[1..], m, j);
    }
  }

  /** A cycle among the nodes makes the sort fail. */
  lemma CycleFails<T>(nodes: seq<T>, edges: seq<Edge<T>>, path: seq<T>)
    requires IsCycle(path, nodes, edges)
    ensures Sort(nodes, edges).Err?
  {
    SortSound(nodes, edges);
    if Sort(nodes, edges).Ok? {
      var order := Sort(nodes, edges).value;
      forall k | 0 <= k < |path| ensures path[k] in order {
        assert path[k] in multiset(nodes);
      }
      var i :| 0 <= i < |order| && order[i] == path[0];
      WalkAscends(order, edges, path, i, i);
    }
  }
}
