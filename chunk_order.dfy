/**
  `sortChunks`: builds an id-to-chunk lookup over the chunks to be referenced,
  turns every parent entry that resolves into a parent-before-child edge, and
  hands nodes and edges to the topological sort.
*/
module ChunkOrder {
  import opened Wrappers
  import opened Chunks
  import opened TopoSort

  /** No later chunk than index `k` carries the same id as `chunks[k]`. */
  ghost predicate LastWithItsId(chunks: seq<Chunk>, k: int)
    requires 0 <= k < |chunks|
  {
    forall l :: k < l < |chunks| ==> chunks[l].id != chunks[k].id
  }

  /** The lookup that filling `nodeMap` in input order produces: a later chunk replaces an earlier one with the same id. */
  function NodeMap(chunks: seq<Chunk>): (m: map<ChunkId, Chunk>)
    ensures forall k :: 0 <= k < |chunks| ==> chunks[k].id in m
    ensures forall id :: id in m ==> m[id] in chunks && m[id].id == id
    ensures forall k :: 0 <= k < |chunks| && LastWithItsId(chunks, k) ==> m[chunks[k].id] == chunks[k]
  {
    if chunks == [] then map[]
    else
      var init := chunks[..|chunks| - 1];
      var last := chunks[|chunks| - 1];
      assert forall k :: 0 <= k < |init| ==> init[k] == chunks[k];
      NodeMap(init)[last.id := last]
  }

  /** The chunk a parent entry stands for, if any: inline chunks as given, ids through the lookup. */
  function Resolve(nodeMap: map<ChunkId, Chunk>, ref: ParentRef): Option<Chunk> {
    match ref
    case Inline(c) => Some(c)
    case ById(id) => if id in nodeMap then Some(nodeMap[id]) else None
  }

  /** The edges contributed by the parent entries `refs` of `child`, in entry order. */
  function ParentEdges(nodeMap: map<ChunkId, Chunk>, child: Chunk, refs: seq<ParentRef>): seq<Edge<Chunk>> {
    if refs == [] then []
    else
      ParentEdges(nodeMap, child, refs[..|refs| - 1]) +
      match Resolve(nodeMap, refs[|refs| - 1])
      case Some(p) => [Edge(p, child)]
      case None => []
  }

  /** The edges of all `chunks`, chunk by chunk. */
  function ChunkEdges(nodeMap: map<ChunkId, Chunk>, chunks: seq<Chunk>): seq<Edge<Chunk>> {
    if chunks == [] then []
    else
      var last := chunks[|chunks| - 1];
      ChunkEdges(nodeMap, chunks[..|chunks| - 1]) + ParentEdges(nodeMap, last, last.parents)
  }

  /** An edge comes from `refs` exactly when some entry of `refs` resolves to its parent and the child is `child`. */
  lemma {:induction false} ParentEdgesSpec(nodeMap: map<ChunkId, Chunk>, child: Chunk, refs: seq<ParentRef>)
    ensures forall e :: e in ParentEdges(nodeMap, child, refs) <==>
      e.child == child && exists p :: 0 <= p < |refs| && Resolve(nodeMap, refs[p]) == Some(e.parent)
  {
    if refs != [] {
      var init := refs[..|refs| - 1];
      ParentEdgesSpec(nodeMap, child, init);
      assert forall p :: 0 <= p < |init| ==> init[p] == refs[p];
    }
  }

  /** An edge is built exactly for a chunk and one of its parent entries that resolves. */
  lemma {:induction false} ChunkEdgesSpec(nodeMap: map<ChunkId, Chunk>, chunks: seq<Chunk>)
    ensures forall e :: e in ChunkEdges(nodeMap, chunks) <==>
      exists k, p :: 0 <= k < |chunks| && 0 <= p < |chunks[k].parents| &&
        e.child == chunks[k] && Resolve(nodeMap, chunks[k].parents[p]) == Some(e.parent)
  {
    if chunks != [] {
      var init := chunks[..|chunks| - 1];
      var last := chunks[|chunks| - 1];
      ChunkEdgesSpec(nodeMap, init);
      ParentEdgesSpec(nodeMap, last, last.parents);
      assert forall k :: 0 <= k < |init| ==> init[k] == chunks[k];
    }
  }

  /** An id entry resolves exactly when some chunk being sorted carries that id, and then to such a chunk. */
  lemma ResolveById(chunks: seq<Chunk>, id: ChunkId)
    ensures Resolve(NodeMap(chunks), ById(id)).Some? <==> exists k :: 0 <= k < |chunks| && chunks[k].id == id
    ensures Resolve(NodeMap(chunks), ById(id)).Some? ==>
      var p := Resolve(NodeMap(chunks), ById(id)).value; p in chunks && p.id == id
  {
  }

  /** In `order`, every chunk comes after each chunk that one of its parent entries resolves to. */
  ghost predicate ParentsFirst(order: seq<Chunk>, nodeMap: map<ChunkId, Chunk>) {
    forall i, j, p ::
      (0 <= i < |order| && 0 <= j < |order| && 0 <= p < |order[j].parents| &&
       Resolve(nodeMap, order[j].parents[p]) == Some(order[i])) ==> i < j
  }

  /** A respecting order of the chunks puts every resolved parent before its child. */
  lemma OrderPutsParentsFirst(chunks: seq<Chunk>, order: seq<Chunk>)
    requires IsTopoOrder(order, chunks, ChunkEdges(NodeMap(chunks), chunks))
    ensures ParentsFirst(order, NodeMap(chunks))
  {
    var m := NodeMap(chunks);
    var edges := ChunkEdges(m, chunks);
    ChunkEdgesSpec(m, chunks);
    forall i, j, p | 0 <= i < |order| && 0 <= j < |order| && 0 <= p < |order[j].parents| &&
      Resolve(m, order[j].parents[p]) == Some(order[i])
      ensures i < j
    {
      assert order[j] in multiset(chunks);
      var k :| 0 <= k < |chunks| && chunks[k] == order[j];
      assert Edge(order[i], order[j]) in edges;
    }
  }

  /** What the sort of the chunks under their resolved edges promises. */
  lemma SortChunksSpec(chunks: seq<Chunk>)
    ensures var r := Sort(chunks, ChunkEdges(NodeMap(chunks), chunks));
      && (r.Ok? ==> multiset(r.value) == multiset(chunks) && ParentsFirst(r.value, NodeMap(chunks)))
      && (r.Err? <==> !Orderable(chunks, ChunkEdges(NodeMap(chunks), chunks)))
  {
    var edges := ChunkEdges(NodeMap(chunks), chunks);
    SortFailsIffNoOrder(chunks, edges);
    if Sort(chunks, edges).Ok? {
      OrderPutsParentsFirst(chunks, Sort(chunks, edges).value);
    }
  }

  lemma NodeMapStep(chunks: seq<Chunk>, i: nat)
    requires i < |chunks|
    ensures NodeMap(chunks[..i + 1]) == NodeMap(chunks[..i])[chunks[i].id := chunks[i]]
  {
    assert chunks[..i + 1][..i] == chunks[..i];
  }

  lemma ChunkEdgesStep(nodeMap: map<ChunkId, Chunk>, chunks: seq<Chunk>, i: nat)
    requires i < |chunks|
    ensures ChunkEdges(nodeMap, chunks[..i + 1]) == ChunkEdges(nodeMap, chunks[..i]) + ParentEdges(nodeMap, chunks[i], chunks[i].parents)
  {
    assert chunks[..i + 1][..i] == chunks[..i];
  }

  lemma ParentEdgesStep(nodeMap: map<ChunkId, Chunk>, child: Chunk, j: nat)
    requires j < |child.parents|
    ensures ParentEdges(nodeMap, child, child.parents[..j + 1]) ==
      ParentEdges(nodeMap, child, child.parents[..j]) +
      match Resolve(nodeMap, child.parents[j])
      case Some(p) => [Edge(p, child)]
      case None => []
  {
    assert child.parents[..j + 1][..j] == child.parents[..j];
  }

  /** The first loop of `sortChunks`: every chunk stored under its id, a later chunk replacing an earlier one. */
  method BuildNodeMap(chunks: seq<Chunk>) returns (nodeMap: map<ChunkId, Chunk>)
    ensures nodeMap == NodeMap(chunks)
    ensures forall c :: c in chunks ==> c.id in nodeMap
  {
    nodeMap := map[];
    for i := 0 to |chunks|
      invariant nodeMap == NodeMap(chunks[..i])
    {
      NodeMapStep(chunks, i);
      nodeMap := nodeMap[chunks[i].id := chunks[i]];
    }
    assert chunks[..|chunks|] == chunks;
  }

  /** The second loop of `sortChunks`: one parent-to-child edge per parent entry that resolves. */
  method BuildEdges(nodeMap: map<ChunkId, Chunk>, chunks: seq<Chunk>) returns (edges: seq<Edge<Chunk>>)
    ensures edges == ChunkEdges(nodeMap, chunks)
  {
    edges := [];
    for i := 0 to |chunks|
      invariant edges == ChunkEdges(nodeMap, chunks[..i])
    {
      var chunk := chunks[i];
      for j := 0 to |chunk.parents|
        invariant edges == ChunkEdges(nodeMap, chunks[..i]) + ParentEdges(nodeMap, chunk, chunk.parents[..j])
      {
        ParentEdgesStep(nodeMap, chunk, j);
        var parent := match chunk.parents[j]
          case Inline(c) => Some(c)
          case ById(id) => if id in nodeMap then Some(nodeMap[id]) else None;
        if parent.Some? {
          edges := edges + [Edge(parent.value, chunk)];
        }
      }
      assert chunk.parents[..|chunk.parents|] == chunk.parents;
      ChunkEdgesStep(nodeMap, chunks, i);
    }
    assert chunks[..|chunks|] == chunks;
  }

  /** The chunks in dependency order, or the sort's failure on a cycle. */
  method SortChunks(chunks: seq<Chunk>) returns (r: Result<seq<Chunk>, CyclicDependency>)
    ensures r == Sort(chunks, ChunkEdges(NodeMap(chunks), chunks))
    ensures r.Ok? ==> multiset(r.value) == multiset(chunks) && ParentsFirst(r.value, NodeMap(chunks))
    ensures r.Err? <==> !Orderable(chunks, ChunkEdges(NodeMap(chunks), chunks))
  {
    var nodeMap := BuildNodeMap(chunks);
    var edges := BuildEdges(nodeMap, chunks);
    r := Sort(chunks, edges);
    SortChunksSpec(chunks);
  }

  /** The only edge two such chunks produce is vendor-before-app. */
  lemma PairEdges(vendor: Chunk, app: Chunk, chunks: seq<Chunk>)
    requires vendor.id != app.id && vendor.parents == [] && app.parents == [ById(vendor.id)]
    requires chunks == [vendor, app] || chunks == [app, vendor]
    ensures ChunkEdges(NodeMap(chunks), chunks) == [Edge(vendor, app)]
  {
    var m := NodeMap(chunks);
    assert ParentEdges(m, vendor, vendor.parents) == [];
    assert app.parents[..0] == [];
    if chunks == [vendor, app] {
      assert LastWithItsId(chunks, 0);
      assert ParentEdges(m, app, app.parents) == [Edge(vendor, app)];
      assert chunks[..1] == [vendor] && [vendor][..0] == [];
      assert ChunkEdges(m, [vendor]) == [];
    } else {
      assert LastWithItsId(chunks, 1);
      assert ParentEdges(m, app, app.parents) == [Edge(vendor, app)];
      assert chunks[..1] == [app] && [app][..0] == [];
      assert ChunkEdges(m, [app]) == [Edge(vendor, app)];
    }
  }

  /** Of two distinct nodes joined by one edge, the only respecting order puts the parent first. */
  lemma PairOrder(a: Chunk, b: Chunk, nodes: seq<Chunk>, order: seq<Chunk>)
    requires a != b && (nodes == [a, b] || nodes == [b, a])
    requires IsTopoOrder(order, nodes, [Edge(a, b)])
    ensures order == [a, b]
  {
    assert multiset(order) == multiset{a, b};
    assert |order| == 2;
    assert order[0] in multiset(order) && order[1] in multiset(order);
    assert a in multiset(order) && b in multiset(order);
  }

  /** Two distinct nodes joined by one edge sort parent first. */
  lemma PairSort(a: Chunk, b: Chunk, nodes: seq<Chunk>)
    requires a != b && (nodes == [a, b] || nodes == [b, a])
    ensures Sort(nodes, [Edge(a, b)]) == Ok([a, b])
  {
    var edges := [Edge(a, b)];
    assert IsTopoOrder([a, b], nodes, edges);
    SortFailsIffNoOrder(nodes, edges);
    PairOrder(a, b, nodes, Sort(nodes, edges).value);
  }

  /** Two chunks, the second with a parent id naming the first: whatever the input order, the parent comes first. */
  lemma ParentBeforeChildExample(vendor: Chunk, app: Chunk, chunks: seq<Chunk>)
    requires vendor.id != app.id && vendor.parents == [] && app.parents == [ById(vendor.id)]
    requires chunks == [vendor, app] || chunks == [app, vendor]
    ensures Sort(chunks, ChunkEdges(NodeMap(chunks), chunks)) == Ok([vendor, app])
  {
    PairEdges(vendor, app, chunks);
    PairSort(vendor, app, chunks);
  }
}
