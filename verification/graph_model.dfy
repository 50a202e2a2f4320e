/** Views/model.py: the editor's persistent room graph, a list of nodes and a
    list of edges, and its dictionary form in which an edge endpoint is the
    position of its node in the node list. */
module GraphModel {
  import opened Wrappers
  import opened PyOps

  class SimpleNode {
    var name: string
    var x: real
    var y: real
    var width: real
    var height: real

    /** `SimpleNode(name, x, y, width, height)` with every argument given. */
    constructor (name: string, x: real, y: real, width: real, height: real)
      ensures this.name == name && this.x == x && this.y == y
      ensures this.width == width && this.height == height
    {
      this.name := name;
      this.x := x;
      this.y := y;
      this.width := width;
      this.height := height;
    }

    /** `SimpleNode(name)`: the defaults place it at the origin with size 150 x 30. */
    constructor Named(name: string)
      ensures this.name == name && x == 0.0 && y == 0.0 && width == 150.0 && height == 30.0
    {
      this.name := name;
      x := 0.0;
      y := 0.0;
      width := 150.0;
      height := 30.0;
    }
  }

  class SimpleEdge {
    var source: SimpleNode
    var target: SimpleNode
    var name: Option<string>

    constructor (source: SimpleNode, target: SimpleNode, name: Option<string>)
      ensures this.source == source && this.target == target && this.name == name
    {
      this.source := source;
      this.target := target;
      this.name := name;
    }
  }

  /** One record of the "nodes" list. */
  datatype NodeRecord = NodeRecord(name: string, x: real, y: real, width: real, height: real)

  /** One record of the "edges" list: endpoints are node-list positions. */
  datatype EdgeRecord = EdgeRecord(source: int, target: int, name: Option<string>)

  /** The dictionary `{"nodes": [...], "edges": [...]}`. */
  datatype GraphDoc = GraphDoc(nodes: seq<NodeRecord>, edges: seq<EdgeRecord>)

  /** The record `to_dict` writes for a node. */
  function RecordOf(n: SimpleNode): (r: NodeRecord)
    reads n
    ensures r.name == n.name && r.x == n.x && r.y == n.y && r.width == n.width && r.height == n.height
  {
    NodeRecord(n.name, n.x, n.y, n.width, n.height)
  }

  /** Nodes are different objects at different positions. */
  predicate Distinct(s: seq<SimpleNode>) {
    forall i, j :: 0 <= i < j < |s| ==> s[i] != s[j]
  }

  /** Two different positions of a distinct list hold different nodes. */
  lemma DistinctAt(s: seq<SimpleNode>, i: nat, j: nat)
    requires Distinct(s) && i < |s| && j < |s| && i != j
    ensures s[i] != s[j]
  {
    if j < i {
      assert s[j] != s[i];
    }
  }

  class SimpleGraph {
    var nodes: seq<SimpleNode>
    var edges: seq<SimpleEdge>

    /** A new graph has no nodes and no edges. */
    constructor ()
      ensures nodes == [] && edges == []
    {
      nodes := [];
      edges := [];
    }

    /** The node records, one per node and in list order. */
    function NodeRecords(k: nat): (r: seq<NodeRecord>)
      reads this, nodes
      requires k <= |nodes|
      ensures |r| == k && forall i :: 0 <= i < k ==> r[i] == RecordOf(nodes[i])
    {
      if k == 0 then [] else NodeRecords(k - 1) + [RecordOf(nodes[k - 1])]
    }

    /** The edge records of the first `k` edges; `list.index` fails when an endpoint is not a node. */
    function EdgeRecords(k: nat): (r: Result<seq<EdgeRecord>>)
      reads this, edges
      requires k <= |edges|
      ensures r.Ok? ==> |r.value| == k
    {
      if k == 0 then Ok([])
      else
        var prefix :- EdgeRecords(k - 1);
        if Resolved(k - 1) then Ok(prefix + [RecordAt(k - 1)])
        else Err("ValueError: edge endpoint is not in list")
    }

    /** Both endpoints of edge `i` are in the node list. */
    predicate Resolved(i: nat)
      reads this, edges
      requires i < |edges|
    {
      edges[i].source in nodes && edges[i].target in nodes
    }

    /** The record of edge `i`: the first positions of its endpoints. */
    function RecordAt(i: nat): (r: EdgeRecord)
      reads this, edges
      requires i < |edges| && Resolved(i)
      ensures 0 <= r.source < |nodes| && nodes[r.source] == edges[i].source
      ensures forall j :: 0 <= j < r.source ==> nodes[j] != edges[i].source
      ensures 0 <= r.target < |nodes| && nodes[r.target] == edges[i].target
      ensures forall j :: 0 <= j < r.target ==> nodes[j] != edges[i].target
      ensures r.name == edges[i].name
    {
      EdgeRecord(IndexOf(nodes, edges[i].source).value, IndexOf(nodes, edges[i].target).value, edges[i].name)
    }

    /** The edge records exist exactly when every endpoint is a node, and then
        record `i` is edge `i`'s record. */
    lemma {:induction false} EdgeRecordsFaithful(k: nat)
      requires k <= |edges|
      ensures EdgeRecords(k).Ok? <==> forall i :: 0 <= i < k ==> Resolved(i)
      ensures EdgeRecords(k).Ok? ==> forall i :: 0 <= i < k ==> EdgeRecords(k).value[i] == RecordAt(i)
    {
      if k > 0 {
        EdgeRecordsFaithful(k - 1);
        var prefix := EdgeRecords(k - 1);
        if prefix.Ok? && Resolved(k - 1) {
          assert EdgeRecords(k) == Ok(prefix.value + [RecordAt(k - 1)]);
          forall i | 0 <= i < k
            ensures EdgeRecords(k).value[i] == RecordAt(i)
          {
            if i < k - 1 {
              assert (prefix.value + [RecordAt(k - 1)])[i] == prefix.value[i];
            }
          }
        }
      }
    }

    /** Every edge is resolved exactly when every endpoint of the list is a node. */
    lemma AllResolved()
      ensures (forall i :: 0 <= i < |edges| ==> Resolved(i)) <==>
        forall e :: e in edges ==> e.source in nodes && e.target in nodes
    {
      if forall i :: 0 <= i < |edges| ==> Resolved(i) {
        forall e | e in edges
          ensures e.source in nodes && e.target in nodes
        {
          var i :| 0 <= i < |edges| && edges[i] == e;
          assert Resolved(i);
        }
      }
    }

    /** `to_dict`: node records in order, and each edge endpoint replaced by the
        first position of that node object in `nodes`. */
    function ToDict(): (r: Result<GraphDoc>)
      reads this, nodes, edges
      ensures r.Ok? <==> forall e :: e in edges ==> e.source in nodes && e.target in nodes
      ensures r.Ok? ==> |r.value.nodes| == |nodes| && forall i :: 0 <= i < |nodes| ==> r.value.nodes[i] == RecordOf(nodes[i])
      ensures r.Ok? ==> |r.value.edges| == |edges| && forall i :: 0 <= i < |edges| ==>
        var s := r.value.edges[i].source;
        var t := r.value.edges[i].target;
        0 <= s < |nodes| && nodes[s] == edges[i].source && (forall j :: 0 <= j < s ==> nodes[j] != edges[i].source) &&
        0 <= t < |nodes| && nodes[t] == edges[i].target && (forall j :: 0 <= j < t ==> nodes[j] != edges[i].target) &&
        r.value.edges[i].name == edges[i].name
    {
      EdgeRecordsFaithful(|edges|);
      AllResolved();
      var es :- EdgeRecords(|edges|);
      Ok(GraphDoc(NodeRecords(|nodes|), es))
    }

    /** The first loop of `from_dict`: a new graph with one fresh node per
        record, in order, and no edges. */
    static method NewNodes(records: seq<NodeRecord>) returns (graph: SimpleGraph)
      ensures fresh(graph) && graph.edges == [] && |graph.nodes| == |records| && Distinct(graph.nodes)
      ensures forall j :: 0 <= j < |records| ==> fresh(graph.nodes[j]) && RecordOf(graph.nodes[j]) == records[j]
    {
      graph := new SimpleGraph();
      var i := 0;
      while i < |records|
        invariant 0 <= i <= |records| && |graph.nodes| == i && graph.edges == []
        invariant Distinct(graph.nodes)
        invariant forall j :: 0 <= j < i ==> fresh(graph.nodes[j]) && RecordOf(graph.nodes[j]) == records[j]
      {
        var d := records[i];
        var node := new SimpleNode(d.name, d.x, d.y, d.width, d.height);
        graph.nodes := graph.nodes + [node];
        i := i + 1;
      }
    }

    /** `from_dict`: append one fresh node per record, then resolve each edge's
        positions in the rebuilt node list, negative positions counting from the end. */
    static method FromDict(doc: GraphDoc) returns (r: Result<SimpleGraph>)
      ensures r.Ok? <==> forall i :: 0 <= i < |doc.edges| ==>
        WrapIndex(|doc.nodes|, doc.edges[i].source).Some? && WrapIndex(|doc.nodes|, doc.edges[i].target).Some?
      ensures r.Ok? ==> fresh(r.value) && |r.value.nodes| == |doc.nodes| && Distinct(r.value.nodes)
      ensures r.Ok? ==> forall i :: 0 <= i < |doc.nodes| ==> fresh(r.value.nodes[i]) && RecordOf(r.value.nodes[i]) == doc.nodes[i]
      ensures r.Ok? ==> |r.value.edges| == |doc.edges| && forall i :: 0 <= i < |doc.edges| ==>
        fresh(r.value.edges[i]) &&
        r.value.edges[i].source == r.value.nodes[WrapIndex(|doc.nodes|, doc.edges[i].source).value] &&
        r.value.edges[i].target == r.value.nodes[WrapIndex(|doc.nodes|, doc.edges[i].target).value] &&
        r.value.edges[i].name == doc.edges[i].name
    {
      var graph := NewNodes(doc.nodes);
      var k := 0;
      while k < |doc.edges|
        invariant 0 <= k <= |doc.edges| && |graph.edges| == k && |graph.nodes| == |doc.nodes|
        invariant Distinct(graph.nodes)
        invariant forall j :: 0 <= j < |doc.nodes| ==> fresh(graph.nodes[j]) && RecordOf(graph.nodes[j]) == doc.nodes[j]
        invariant forall j :: 0 <= j < k ==>
          WrapIndex(|doc.nodes|, doc.edges[j].source).Some? && WrapIndex(|doc.nodes|, doc.edges[j].target).Some?
        invariant forall j :: 0 <= j < k ==>
          fresh(graph.edges[j]) &&
          graph.edges[j].source == graph.nodes[WrapIndex(|doc.nodes|, doc.edges[j].source).value] &&
          graph.edges[j].target == graph.nodes[WrapIndex(|doc.nodes|, doc.edges[j].target).value] &&
          graph.edges[j].name == doc.edges[j].name
      {
        var d := doc.edges[k];
        var s := WrapIndex(|graph.nodes|, d.source);
        if s.None? {
          return Err("IndexError: list index out of range");
        }
        var t := WrapIndex(|graph.nodes|, d.target);
        if t.None? {
          return Err("IndexError: list index out of range");
        }
        var edge := new SimpleEdge(graph.nodes[s.value], graph.nodes[t.value], d.name);
        graph.edges := graph.edges + [edge];
        k := k + 1;
      }
      return Ok(graph);
    }
  }

  /** Positions in a document are all non-negative and below the node count. */
  predicate InRange(doc: GraphDoc) {
    forall i :: 0 <= i < |doc.edges| ==>
      0 <= doc.edges[i].source < |doc.nodes| && 0 <= doc.edges[i].target < |doc.nodes|
  }

  /** A document with in-range non-negative positions survives loading and saving unchanged. */
  method LoadThenSave(doc: GraphDoc) returns (saved: Result<GraphDoc>)
    requires InRange(doc)
    ensures saved == Ok(doc)
  {
    var g := SimpleGraph.FromDict(doc);
    LoadedSaves(g.value, doc);
    saved := g.value.ToDict();
  }

  /** A graph holding the nodes and edges of an in-range document saves back
      to that document. */
  lemma LoadedSaves(graph: SimpleGraph, doc: GraphDoc)
    requires InRange(doc)
    requires |graph.nodes| == |doc.nodes| && Distinct(graph.nodes)
    requires forall i :: 0 <= i < |doc.nodes| ==> RecordOf(graph.nodes[i]) == doc.nodes[i]
    requires |graph.edges| == |doc.edges| && forall i :: 0 <= i < |doc.edges| ==>
      graph.edges[i].source == graph.nodes[WrapIndex(|doc.nodes|, doc.edges[i].source).value] &&
      graph.edges[i].target == graph.nodes[WrapIndex(|doc.nodes|, doc.edges[i].target).value] &&
      graph.edges[i].name == doc.edges[i].name
    ensures graph.ToDict() == Ok(doc)
  {
    var nodes := graph.nodes;
    forall i | 0 <= i < |doc.edges|
      ensures graph.edges[i].source in nodes && graph.edges[i].target in nodes
    {
    }
    var saved := graph.ToDict();
    assert saved.value.nodes == doc.nodes;
    forall i | 0 <= i < |doc.edges|
      ensures saved.value.edges[i] == doc.edges[i]
    {
      var s, t := doc.edges[i].source, doc.edges[i].target;
      assert WrapIndex(|doc.nodes|, s) == Some(s) && WrapIndex(|doc.nodes|, t) == Some(t);
      assert graph.edges[i].source == nodes[s] && graph.edges[i].target == nodes[t];
      IndexOfDistinct(nodes, s);
      IndexOfDistinct(nodes, t);
    }
    assert saved.value.edges == doc.edges;
  }

  /** Saving a graph whose nodes are distinct objects and loading the result
      rebuilds the same node fields in the same order, and each edge joins the
      nodes at the same positions. */
  method SaveThenLoad(graph: SimpleGraph) returns (loaded: Result<SimpleGraph>)
    requires Distinct(graph.nodes)
    requires forall e :: e in graph.edges ==> e.source in graph.nodes && e.target in graph.nodes
    ensures loaded.Ok? && |loaded.value.nodes| == |graph.nodes| && |loaded.value.edges| == |graph.edges|
    ensures forall i :: 0 <= i < |graph.nodes| ==> RecordOf(loaded.value.nodes[i]) == RecordOf(graph.nodes[i])
    ensures forall k, i :: 0 <= k < |graph.edges| && 0 <= i < |graph.nodes| ==>
      (loaded.value.edges[k].source == loaded.value.nodes[i] <==> graph.edges[k].source == graph.nodes[i]) &&
      (loaded.value.edges[k].target == loaded.value.nodes[i] <==> graph.edges[k].target == graph.nodes[i])
  {
    var doc := graph.ToDict();
    var d := doc.value;
    loaded := SimpleGraph.FromDict(d);
    var g := loaded.value;
    forall k, i | 0 <= k < |graph.edges| && 0 <= i < |graph.nodes|
      ensures (g.edges[k].source == g.nodes[i] <==> graph.edges[k].source == graph.nodes[i]) &&
              (g.edges[k].target == g.nodes[i] <==> graph.edges[k].target == graph.nodes[i])
    {
      var s, t := d.edges[k].source, d.edges[k].target;
      assert WrapIndex(|d.nodes|, s) == Some(s) && WrapIndex(|d.nodes|, t) == Some(t);
      assert g.edges[k].source == g.nodes[s] && graph.edges[k].source == graph.nodes[s];
      assert g.edges[k].target == g.nodes[t] && graph.edges[k].target == graph.nodes[t];
      if i != s {
        DistinctAt(graph.nodes, i, s);
        DistinctAt(g.nodes, i, s);
      }
      if i != t {
        DistinctAt(graph.nodes, i, t);
        DistinctAt(g.nodes, i, t);
      }
    }
  }
}
