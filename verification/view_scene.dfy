/** The editing scene of Views/test.py (`SceneClass` with the mouse and key
    handlers of `ViewClass`): the room and connection items on the canvas,
    the room graph they are bound to, the shared room counter and the state
    of a right-button drag that draws a new connection. */
module ViewScene {
  import opened Wrappers
  import opened PyOps
  import opened Geometry
  import opened GraphModel
  import opened ViewItems

  /** An item of the scene's selection. Only rooms set the selectable flag
      (Views/test.py:320-322); a connection reaches the delete handler's
      `Edge` branch only if something else selects it, so the `EdgeSel` case
      models a branch the editor itself never takes. */
  datatype Selected = NodeSel(node: NodeItem) | EdgeSel(edge: EdgeItem)

  /** The connection list `s` of room `m` after detaching connection `e`: its
      entry leaves once for each end `e` has at `m`, source end first, and a
      missing entry fails as `list.remove` does. */
  function DropEnds(s: seq<EdgeItem>, m: NodeItem, e: EdgeItem): (r: Result<seq<EdgeItem>>)
    ensures r.Ok? ==> |r.value| == |s| - (if e.source == m then 1 else 0) - (if e.dest == m then 1 else 0)
    ensures r.Ok? ==> forall f :: f in r.value ==> f in s
    ensures e.source != m && e.dest != m ==> r == Ok(s)
  {
    var afterSource :- if e.source == m then RemoveFirst(s, e) else Ok(s);
    RemoveFirstKeeps(s, e);
    var afterDest :- if e.dest == m then RemoveFirst(afterSource, e) else Ok(afterSource);
    RemoveFirstKeeps(afterSource, e);
    Ok(afterDest)
  }

  /** The connection list `s` of room `m` after detaching the first `k`
      connections of `es` in order, or the failure of the first missing entry. */
  function Detached(s: seq<EdgeItem>, m: NodeItem, es: seq<EdgeItem>, k: nat): Result<seq<EdgeItem>>
    requires k <= |es|
  {
    if k == 0 then Ok(s) else
      var prefix :- Detached(s, m, es, k - 1);
      DropEnds(prefix, m, es[k - 1])
  }

  /** Detaching connections that all have an end at `m` takes at least one
      entry per connection out of the list of `m`. */
  lemma {:induction false} DetachedShrinks(s: seq<EdgeItem>, m: NodeItem, es: seq<EdgeItem>, k: nat)
    requires k <= |es| && Detached(s, m, es, k).Ok?
    requires forall e :: e in es ==> e.source == m || e.dest == m
    ensures |Detached(s, m, es, k).value| + k <= |s|
  {
    if k > 0 {
      DetachedUnfold(s, m, es, k);
      DetachedShrinks(s, m, es, k - 1);
      assert es[k - 1] in es;
    }
  }

  /** A successful detachment of `k` connections extends a successful one of
      `k - 1`. */
  lemma DetachedUnfold(s: seq<EdgeItem>, m: NodeItem, es: seq<EdgeItem>, k: nat)
    requires 0 < k <= |es| && Detached(s, m, es, k).Ok?
    ensures Detached(s, m, es, k - 1).Ok?
    ensures Detached(s, m, es, k) == DropEnds(Detached(s, m, es, k - 1).value, m, es[k - 1])
  {
  }

  /** Detaching a room's whole connection list from that room, when every
      entry succeeds, leaves the list empty. */
  lemma DetachingOwnListEmptiesIt(m: NodeItem, es: seq<EdgeItem>)
    requires Detached(es, m, es, |es|).Ok?
    requires forall e :: e in es ==> e.source == m || e.dest == m
    ensures Detached(es, m, es, |es|).value == []
  {
    DetachedShrinks(es, m, es, |es|);
  }

  /** One more step of `Detached`. */
  lemma DetachedStep(s: seq<EdgeItem>, m: NodeItem, es: seq<EdgeItem>, k: nat)
    requires k < |es| && Detached(s, m, es, k).Ok?
    ensures Detached(s, m, es, k + 1) == DropEnds(Detached(s, m, es, k).value, m, es[k])
  {
  }

  /** A whole-length prefix is the sequence itself. */
  lemma SliceAll<T>(s: seq<T>)
    ensures s[..|s|] == s
  {
  }

  /** The elements of a list grow by the one appended. */
  /** The elements at the indices of a sequence grown by one element. */
  lemma IndexedAppend<T>(s: seq<T>, t: seq<T>)
    requires |t| == |s| + 1 && t[..|s|] == s
    ensures (set k | 0 <= k < |t| :: t[k]) == (set k | 0 <= k < |s| :: s[k]) + {t[|s|]}
  {
    var grown := set k | 0 <= k < |t| :: t[k];
    var before := set k | 0 <= k < |s| :: s[k];
    forall x | x in grown
      ensures x in before + {t[|s|]}
    {
      var k :| 0 <= k < |t| && t[k] == x;
      if k < |s| {
        assert s[k] == t[k];
      }
    }
    forall x | x in before
      ensures x in grown
    {
      var k :| 0 <= k < |s| && s[k] == x;
      assert t[k] == x;
    }
  }

  lemma ElementsAppend<T>(s: seq<T>, x: T)
    ensures (set y | y in s + [x]) == (set y | y in s) + {x}
  {
  }

  /** A prefix grows by one element. */
  lemma SliceStep<T>(s: seq<T>, i: nat)
    requires i < |s|
    ensures s[..i + 1] == s[..i] + [s[i]]
  {
  }

  /** A list whose entries all come from an empty list is empty. */
  lemma NothingFromEmpty(s: seq<EdgeItem>, t: seq<EdgeItem>)
    requires t == [] && forall f :: f in s ==> f in t
    ensures s == []
  {
    FirstIsMember(s);
  }

  /** A non-empty list holds its first entry. */
  lemma FirstIsMember<T>(s: seq<T>)
    ensures s == [] || s[0] in s
  {
  }

  /** The connections among the first `k` of `es`. */
  function FirstItems(es: seq<EdgeItem>, k: nat): set<EdgeItem>
    requires k <= |es|
  {
    if k == 0 then {} else FirstItems(es, k - 1) + {es[k - 1]}
  }

  /** Taking out one more connection. */
  lemma FirstItemsStep(a: set<EdgeItem>, es: seq<EdgeItem>, i: nat)
    requires i < |es|
    ensures a - FirstItems(es, i) - {es[i]} == a - FirstItems(es, i + 1)
  {
  }

  /** `if e in s: s.remove(e)`: one entry of `e`, when there is one, leaves `s`. */
  function Discard(s: seq<EdgeItem>, e: EdgeItem): (r: seq<EdgeItem>)
    ensures multiset(r) == multiset(s) - multiset{e}
  {
    RemoveFirstCount(s, e);
    if e in s then RemoveFirst(s, e).value else s
  }

  /** The graph edges the connections `es` are bound to, in order. */
  function ModelsOf(es: seq<EdgeItem>): (r: seq<SimpleEdge?>)
    reads set e | e in es
    ensures |r| == |es| && forall k :: 0 <= k < |es| ==> r[k] == es[k].model
  {
    if es == [] then [] else ModelsOf(es[..|es| - 1]) + [es[|es| - 1].model]
  }

  /** The rooms among the first `k` items of a selection. */
  function SelectedRooms(selected: seq<Selected>, k: nat): set<NodeItem>
    requires k <= |selected|
  {
    if k == 0 then {}
    else SelectedRooms(selected, k - 1) + (if selected[k - 1].NodeSel? then {selected[k - 1].node} else {})
  }

  /** The first room under the mouse that is not `start`. */
  function FirstOther(hits: seq<NodeItem>, start: NodeItem): (r: Option<nat>)
    ensures r.Some? ==> r.value < |hits| && hits[r.value] != start
    ensures r.Some? ==> forall j :: 0 <= j < r.value ==> hits[j] == start
    ensures r.None? <==> forall j :: 0 <= j < |hits| ==> hits[j] == start
  {
    if hits == [] then None
    else if hits[0] != start then Some(0)
    else match FirstOther(hits[1..], start)
      case Some(k) => Some(k + 1)
      case None => None
  }

  /** The rectangle `loadGraph` gives a room from its saved size, as written:
      `setRect(0, 0, width, height)`, corner at the room's position. */
  function LoadedRectAsWritten(width: real, height: real): Rect {
    Rect(0.0, 0.0, width, height)
  }

  /** The evidently intended rectangle of a loaded room: the saved size with
      the corner every room made in the editor keeps, since `Node()` starts
      from the centred rectangle and resizing never moves the top-left corner. */
  function LoadedRect(width: real, height: real): Rect {
    Rect(NewNodeRect.x, NewNodeRect.y, width, height)
  }

  /** Saving and loading a room made in the editor gives back its rectangle,
      and with it its place on the canvas. */
  lemma SaveLoadKeepsRect(pos: Point, r: Rect)
    requires r.x == NewNodeRect.x && r.y == NewNodeRect.y
    ensures LoadedRect(r.w, r.h) == r
    ensures SceneRect(pos, LoadedRect(r.w, r.h)) == SceneRect(pos, r)
  {
  }

  /** As written, saving and loading moves every room made in the editor: its
      rectangle, and so its centre on the canvas, shifts by (75, 15). */
  lemma LoadAsWrittenShifts(pos: Point, r: Rect)
    requires r.x == NewNodeRect.x && r.y == NewNodeRect.y
    ensures LoadedRectAsWritten(r.w, r.h) != r
    ensures Plus(pos, LoadedRectAsWritten(r.w, r.h).Center()) == Plus(Plus(pos, r.Center()), Point(75.0, 15.0))
  {
  }

  /** Connection lists only hold connections with an end at their room, and
      between rooms of `rooms`. */
  ghost predicate Registered(rooms: set<NodeItem>)
    reads rooms
  {
    (forall m, e :: m in rooms && e in m.edges ==> e.source == m || e.dest == m) &&
    (forall m, e :: m in rooms && e in m.edges ==> e.source in rooms && e.dest in rooms)
  }

  /** A room with no connections joins the registered rooms. */
  lemma RegisteredAdd(rooms: set<NodeItem>, n: NodeItem)
    requires Registered(rooms) && n.edges == []
    ensures Registered(rooms + {n})
  {
  }

  class Editor {
    var graph: SimpleGraph
    var nodeItems: set<NodeItem>
    var edgeItems: set<EdgeItem>
    /** `Node._id_counter`. */
    var counter: nat
    /** `edge_drag_start_node`; a drag is in progress exactly when it is set. */
    var dragStart: NodeItem?
    /** Every room item created in this scene, including those since removed. */
    ghost var rooms: set<NodeItem>

    /** The rooms on the canvas are among those created here, and every
        connection list is registered. */
    ghost predicate Valid()
      reads this, rooms
    {
      nodeItems <= rooms && Registered(rooms)
    }

    /** Every room on the canvas is bound to a graph node. */
    predicate Bound()
      reads this, nodeItems
    {
      forall m :: m in nodeItems ==> m.model != null
    }

    /** An empty scene and graph with the counter at 1. */
    constructor ()
      ensures fresh(graph) && graph.nodes == [] && graph.edges == []
      ensures nodeItems == {} && edgeItems == {} && counter == 1 && dragStart == null
      ensures Valid() && Bound()
    {
      graph := new SimpleGraph();
      nodeItems := {};
      edgeItems := {};
      counter := 1;
      dragStart := null;
      rooms := {};
    }

    /** `m.edges.remove(e)`: the first entry of `e` leaves the connection list of `m`. */
    method RemoveEntry(m: NodeItem, e: EdgeItem) returns (r: Result<()>)
      modifies m`edges
      ensures r.Ok? <==> e in old(m.edges)
      ensures r.Ok? ==> RemoveFirst(old(m.edges), e) == Ok(m.edges)
      ensures r.Err? ==> m.edges == old(m.edges)
    {
      var s := RemoveFirst(m.edges, e);
      if s.Err? {
        return Err(s.msg);
      }
      m.edges := s.value;
      r := Ok(());
    }

    /** `edge.source_node.edges.remove(edge)` then
        `edge.dest_node.edges.remove(edge)`, for a connection `e` of room `n`. */
    method RemoveEnds(ghost n: NodeItem, e: EdgeItem) returns (r: Result<()>)
      requires e.source == n || e.dest == n
      modifies e.source`edges, e.dest`edges
      ensures r.Ok? <==> DropEnds(old(e.source.edges), e.source, e).Ok? && DropEnds(old(e.dest.edges), e.dest, e).Ok?
      ensures r.Ok? ==> DropEnds(old(n.edges), n, e) == Ok(n.edges)
      ensures forall f :: f in e.source.edges ==> f in old(e.source.edges)
      ensures forall f :: f in e.dest.edges ==> f in old(e.dest.edges)
    {
      r := RemoveEntry(e.source, e);
      if r.Err? {
        return;
      }
      r := RemoveEntry(e.dest, e);
    }

    /** One step of the deletion cascade of room `n`: take its connection `e`
        off the canvas, its graph edge out of `graph.edges` and its entries out
        of the connection lists of its source and then its destination.  Each
        `list.remove` fails when the entry is not there. */
    method DetachEdge(ghost n: NodeItem, e: EdgeItem) returns (r: Result<()>)
      requires e.source == n || e.dest == n
      requires Registered(rooms) && e.source in rooms && e.dest in rooms
      modifies this`edgeItems, graph`edges, e.source`edges, e.dest`edges
      ensures edgeItems == old(edgeItems) - {e}
      ensures r.Ok? <==> (e.model != null && e.model in old(graph.edges) &&
                          DropEnds(old(e.source.edges), e.source, e).Ok? && DropEnds(old(e.dest.edges), e.dest, e).Ok?)
      ensures r.Ok? ==> graph.edges == RemoveFirst(old(graph.edges), e.model as SimpleEdge).value
      ensures r.Ok? ==> multiset(old(graph.edges)) == multiset(graph.edges) + multiset{e.model as SimpleEdge}
      ensures r.Ok? ==> DropEnds(old(n.edges), n, e) == Ok(n.edges)
      ensures forall f :: f in e.source.edges ==> f in old(e.source.edges)
      ensures forall f :: f in e.dest.edges ==> f in old(e.dest.edges)
      ensures Registered(rooms)
    {
      edgeItems := edgeItems - {e};
      if e.model == null {
        return Err("AttributeError");
      }
      var model: SimpleEdge := e.model;
      var g := RemoveFirst(graph.edges, model);
      if g.Err? {
        return Err(g.msg);
      }
      RemoveFirstCount(graph.edges, model);
      graph.edges := g.value;
      r := RemoveEnds(n, e);
      forall m, f | m in rooms && f in m.edges
        ensures f in old(m.edges)
      {
      }
    }

    /** The body of that loop: detach the `i`-th connection of the copy. */
    method DetachNext(n: NodeItem, es: seq<EdgeItem>, i: nat, ghost models: seq<SimpleEdge?>,
                      ghost listed: multiset<SimpleEdge?>, ghost items: set<EdgeItem>,
                      ghost before: map<NodeItem, seq<EdgeItem>>) returns (r: Result<()>)
      requires i < |es| && |models| == |es| && models[i] == es[i].model
      requires (es[i].source == n || es[i].dest == n) && es[i].source in rooms && es[i].dest in rooms
      requires Registered(rooms) && Detached(es, n, es, i) == Ok(n.edges)
      requires listed == multiset(graph.edges) + multiset(models[..i])
      requires edgeItems == items - FirstItems(es, i)
      requires forall m, f :: m in rooms && f in m.edges ==> m in before && f in before[m]
      modifies this`edgeItems, graph`edges, rooms`edges
      ensures edgeItems == items - FirstItems(es, i + 1)
      ensures r.Ok? ==> listed == multiset(graph.edges) + multiset(models[..i + 1])
      ensures r.Ok? ==> Detached(es, n, es, i + 1) == Ok(n.edges)
      ensures forall m, f :: m in rooms && f in m.edges ==> m in before && f in before[m]
      ensures Registered(rooms)
    {
      r := DetachEdge(n, es[i]);
      FirstItemsStep(items, es, i);
      if r.Ok? {
        DetachedStep(es, n, es, i);
        SliceStep(models, i);
      }
    }

    /** The loop of `for edge in item.edges[:]`: detach the connections `es`
        of room `n` in turn, stopping at the first failure, keeping account of
        the edge items left, the graph edges removed and the room's own list. */
    method DetachLoop(n: NodeItem, es: seq<EdgeItem>, ghost models: seq<SimpleEdge?>,
                      ghost listed: multiset<SimpleEdge?>, ghost items: set<EdgeItem>,
                      ghost before: map<NodeItem, seq<EdgeItem>>) returns (r: Result<()>)
      requires |models| == |es| && forall k :: 0 <= k < |es| ==> models[k] == es[k].model
      requires forall k :: 0 <= k < |es| ==>
        (es[k].source == n || es[k].dest == n) && es[k].source in rooms && es[k].dest in rooms
      requires Registered(rooms) && Detached(es, n, es, 0) == Ok(n.edges)
      requires listed == multiset(graph.edges) + multiset(models[..0])
      requires edgeItems == items - FirstItems(es, 0)
      requires forall m, f :: m in rooms && f in m.edges ==> m in before && f in before[m]
      modifies this`edgeItems, graph`edges, rooms`edges
      ensures r.Ok? ==> edgeItems == items - FirstItems(es, |es|)
      ensures r.Ok? ==> listed == multiset(graph.edges) + multiset(models[..|es|])
      ensures r.Ok? ==> Detached(es, n, es, |es|) == Ok(n.edges)
      ensures forall m, f :: m in rooms && f in m.edges ==> m in before && f in before[m]
      ensures Registered(rooms)
    {
      r := Ok(());
      var i := 0;
      while i < |es|
        invariant 0 <= i <= |es| && r.Ok?
        invariant edgeItems == items - FirstItems(es, i)
        invariant listed == multiset(graph.edges) + multiset(models[..i])
        invariant Detached(es, n, es, i) == Ok(n.edges)
        invariant forall m, f :: m in rooms && f in m.edges ==> m in before && f in before[m]
        invariant Registered(rooms)
      {
        r := DetachNext(n, es, i, models, listed, items, before);
        if r.Err? {
          return;
        }
        i := i + 1;
      }
    }

    /** `for edge in item.edges[:]` for a selected room `n`: detach every
        connection of a copy of its list in turn, stopping at the first failure.
        On success every one of them is off the canvas, their graph edges have
        left `graph.edges`, the room's own list is empty and every other
        connection list has only lost entries. */
    method DetachAll(n: NodeItem) returns (r: Result<()>)
      requires Registered(rooms) && n in rooms
      modifies this`edgeItems, graph`edges, rooms`edges
      ensures r.Ok? ==> edgeItems == old(edgeItems) - FirstItems(old(n.edges), |old(n.edges)|)
      ensures r.Ok? ==> old(multiset(graph.edges)) == multiset(graph.edges) + multiset(old(ModelsOf(n.edges)))
      ensures r.Ok? ==> Detached(old(n.edges), n, old(n.edges), |old(n.edges)|) == Ok(n.edges) && n.edges == []
      ensures forall m, f :: m in rooms && f in m.edges ==> f in old(m.edges)
      ensures Registered(rooms)
    {
      var es := n.edges;
      ghost var models := ModelsOf(es);
      ghost var before := map m | m in rooms :: m.edges;
      assert forall k :: 0 <= k < |es| ==> es[k] in n.edges;
      r := DetachLoop(n, es, models, multiset(graph.edges), edgeItems, before);
      if r.Ok? {
        SliceAll(models);
        DetachingOwnListEmptiesIt(n, es);
      }
    }

    /** The cascade `deleteSelectedItems` runs for a selected room `n`: its
        connections are detached, then the room leaves the canvas and, when its
        graph node is listed, the first entry of that node leaves `graph.nodes`.
        Reading the graph node of an unbound room fails. */
    method DeleteNode(n: NodeItem) returns (r: Result<()>)
      requires Registered(rooms) && n in rooms
      modifies this`edgeItems, this`nodeItems, graph`edges, graph`nodes, rooms`edges
      ensures r.Ok? ==> edgeItems == old(edgeItems) - FirstItems(old(n.edges), |old(n.edges)|)
      ensures r.Ok? ==> old(multiset(graph.edges)) == multiset(graph.edges) + multiset(old(ModelsOf(n.edges)))
      ensures r.Ok? ==> n.edges == [] && nodeItems == old(nodeItems) - {n} && n.model != null
      ensures r.Ok? && n.model in old(graph.nodes) ==> graph.nodes == RemoveFirst(old(graph.nodes), n.model as SimpleNode).value
      ensures r.Ok? && n.model !in old(graph.nodes) ==> graph.nodes == old(graph.nodes)
      ensures r.Ok? ==> multiset(graph.nodes) <= old(multiset(graph.nodes))
      ensures forall m, f :: m in rooms && f in m.edges ==> f in old(m.edges)
      ensures Registered(rooms)
    {
      r := DetachAll(n);
      if r.Err? {
        return;
      }
      r := RemoveRoom(n);
    }

    /** The rest of the cascade once the connections are gone: the room
        leaves the canvas and the first entry of its graph node, when listed,
        leaves `graph.nodes`; an unbound room raises AttributeError. */
    method RemoveRoom(n: NodeItem) returns (r: Result<()>)
      modifies this`nodeItems, graph`nodes
      ensures nodeItems == old(nodeItems) - {n}
      ensures r.Ok? <==> n.model != null
      ensures r.Ok? && n.model in old(graph.nodes) ==> graph.nodes == RemoveFirst(old(graph.nodes), n.model as SimpleNode).value
      ensures n.model !in old(graph.nodes) ==> graph.nodes == old(graph.nodes)
      ensures multiset(graph.nodes) <= old(multiset(graph.nodes))
    {
      nodeItems := nodeItems - {n};
      if n.model == null {
        return Err("AttributeError");
      }
      var model: SimpleNode := n.model;
      if model in graph.nodes {
        RemoveFirstCount(graph.nodes, model);
        graph.nodes := RemoveFirst(graph.nodes, model).value;
      }
      r := Ok(());
    }

    /** What `deleteSelectedItems` does for a selected connection `e`: it leaves
        the canvas and, when its graph edge is listed, the first entry of that
        edge leaves `graph.edges`.  The connection lists of its rooms are left
        as they are. */
    method DeleteEdgeItem(e: EdgeItem) returns (r: Result<()>)
      modifies this`edgeItems, graph`edges
      ensures edgeItems == old(edgeItems) - {e}
      ensures r.Ok? <==> e.model != null
      ensures r.Ok? && e.model in old(graph.edges) ==> graph.edges == RemoveFirst(old(graph.edges), e.model as SimpleEdge).value
      ensures e.model !in old(graph.edges) ==> graph.edges == old(graph.edges)
      ensures multiset(graph.edges) <= old(multiset(graph.edges))
    {
      edgeItems := edgeItems - {e};
      if e.model == null {
        return Err("AttributeError");
      }
      var model: SimpleEdge := e.model;
      if model in graph.edges {
        RemoveFirstCount(graph.edges, model);
        graph.edges := RemoveFirst(graph.edges, model).value;
      }
      r := Ok(());
    }

    /** `Node.deleteNode` (the room's own Delete action): each of its
        connections, then the room, leaves the canvas.  The connection lists
        and the graph are left as they are, so the graph still holds the
        room's node and edges. */
    method DeleteRoomFromMenu(n: NodeItem)
      modifies this`nodeItems, this`edgeItems
      ensures nodeItems == old(nodeItems) - {n}
      ensures edgeItems == old(edgeItems) - FirstItems(n.edges, |n.edges|)
      ensures graph.nodes == old(graph.nodes) && graph.edges == old(graph.edges)
    {
      var es := n.edges;
      for i := 0 to |es|
        invariant edgeItems == old(edgeItems) - FirstItems(es, i)
        invariant nodeItems == old(nodeItems)
      {
        FirstItemsStep(old(edgeItems), es, i);
        edgeItems := edgeItems - {es[i]};
      }
      nodeItems := nodeItems - {n};
    }

    /** `Edge.deleteEdge` (the connection's own Delete action): one entry of it
        leaves the list of its source and then of its destination, each only
        when it is there, its marker goes and it leaves the canvas.  Its graph
        edge stays in the graph. */
    method DeleteLinkFromMenu(e: EdgeItem)
      requires Registered(rooms)
      modifies e.source`edges, e.dest`edges, e`indicator, this`edgeItems
      ensures e.source != e.dest ==> e.source.edges == Discard(old(e.source.edges), e) && e.dest.edges == Discard(old(e.dest.edges), e)
      ensures e.source == e.dest ==> e.source.edges == Discard(Discard(old(e.source.edges), e), e)
      ensures e.indicator == None && edgeItems == old(edgeItems) - {e}
      ensures Registered(rooms)
    {
      e.RemoveIndicatorCircle();
      edgeItems := edgeItems - {e};
      DiscardEnds(e, rooms);
    }

    /** The two guarded removals of `deleteEdge`, source first. */
    static method DiscardEnds(e: EdgeItem, ghost rooms: set<NodeItem>)
      requires Registered(rooms)
      modifies e.source`edges, e.dest`edges
      ensures e.source != e.dest ==> e.source.edges == Discard(old(e.source.edges), e) && e.dest.edges == Discard(old(e.dest.edges), e)
      ensures e.source == e.dest ==> e.source.edges == Discard(Discard(old(e.source.edges), e), e)
      ensures forall f :: f in e.source.edges ==> f in old(e.source.edges)
      ensures forall f :: f in e.dest.edges ==> f in old(e.dest.edges)
      ensures Registered(rooms)
    {
      DiscardEntry(e.source, e);
      DiscardEntry(e.dest, e);
      forall m, f | m in rooms && f in m.edges
        ensures f in old(m.edges)
      {
      }
    }

    /** `if e in m.edges: m.edges.remove(e)`. */
    static method DiscardEntry(m: NodeItem, e: EdgeItem)
      modifies m`edges
      ensures m.edges == Discard(old(m.edges), e)
      ensures forall f :: f in m.edges ==> f in old(m.edges)
    {
      m.edges := Discard(m.edges, e);
      forall f | f in m.edges
        ensures f in old(m.edges)
      {
        assert f in multiset(m.edges);
      }
    }

    /** The body of the deletion loop for one selected item. */
    method DeleteItem(item: Selected) returns (r: Result<()>)
      requires Registered(rooms)
      requires item.NodeSel? ==> item.node in rooms
      modifies this`edgeItems, this`nodeItems, graph`edges, graph`nodes, rooms`edges
      ensures item.NodeSel? && r.Ok? ==> item.node.edges == [] && nodeItems == old(nodeItems) - {item.node}
      ensures item.EdgeSel? ==> item.edge !in edgeItems && nodeItems == old(nodeItems)
      ensures r.Ok? ==> edgeItems <= old(edgeItems)
      ensures r.Ok? ==> multiset(graph.edges) <= old(multiset(graph.edges)) && multiset(graph.nodes) <= old(multiset(graph.nodes))
      ensures forall m, f :: m in rooms && f in m.edges ==> f in old(m.edges)
      ensures Registered(rooms)
    {
      match item {
        case NodeSel(n) =>
          r := DeleteNode(n);
        case EdgeSel(e) =>
          r := DeleteEdgeItem(e);
      }
    }

    /** `deleteSelectedItems` (the Delete key): nothing happens for an empty
        selection or an unconfirmed dialog; otherwise each selected item is
        deleted in order, stopping at the first failure.  On success every
        selected room has left the canvas with its connection list emptied,
        every selected connection has left the canvas, and the graph has only
        lost entries. */
    method DeleteSelectedItems(selected: seq<Selected>, confirmed: bool) returns (r: Result<()>)
      requires Registered(rooms)
      requires forall k :: 0 <= k < |selected| && selected[k].NodeSel? ==> selected[k].node in rooms
      modifies this`edgeItems, this`nodeItems, graph`edges, graph`nodes, rooms`edges
      ensures selected == [] || !confirmed ==>
                r.Ok? && edgeItems == old(edgeItems) && nodeItems == old(nodeItems) &&
                graph.edges == old(graph.edges) && graph.nodes == old(graph.nodes)
      ensures r.Ok? && confirmed ==> nodeItems == old(nodeItems) - SelectedRooms(selected, |selected|)
      ensures r.Ok? && confirmed ==> forall k :: 0 <= k < |selected| && selected[k].NodeSel? ==> selected[k].node.edges == []
      ensures r.Ok? && confirmed ==> forall k :: 0 <= k < |selected| && selected[k].EdgeSel? ==> selected[k].edge !in edgeItems
      ensures r.Ok? ==> edgeItems <= old(edgeItems)
      ensures r.Ok? ==> multiset(graph.edges) <= old(multiset(graph.edges)) && multiset(graph.nodes) <= old(multiset(graph.nodes))
      ensures forall m, f :: m in rooms && f in m.edges ==> f in old(m.edges)
      ensures Registered(rooms)
    {
      r := Ok(());
      if selected == [] || !confirmed {
        return;
      }
      var i := 0;
      while i < |selected|
        invariant 0 <= i <= |selected| && r.Ok? && Registered(rooms)
        invariant nodeItems == old(nodeItems) - SelectedRooms(selected, i)
        invariant forall k :: 0 <= k < i && selected[k].NodeSel? ==> selected[k].node.edges == []
        invariant forall k :: 0 <= k < i && selected[k].EdgeSel? ==> selected[k].edge !in edgeItems
        invariant edgeItems <= old(edgeItems)
        invariant multiset(graph.edges) <= old(multiset(graph.edges)) && multiset(graph.nodes) <= old(multiset(graph.nodes))
        invariant forall m, f :: m in rooms && f in m.edges ==> f in old(m.edges)
      {
        label before:
        r := DeleteItem(selected[i]);
        if r.Err? {
          return;
        }
        forall k | 0 <= k < i && selected[k].NodeSel?
          ensures selected[k].node.edges == []
        {
          var m := selected[k].node;
          assert m in rooms && old@before(m.edges) == [];
          NothingFromEmpty(m.edges, old@before(m.edges));
        }
        i := i + 1;
      }
    }

    /** A new room where the mouse is (`mouseDoubleClickEvent` over empty
        canvas, or "Add Room" in the canvas menu): `Node()` takes the next
        counter value for its label, is placed at `at`, and a graph node with
        the same name and position and the default size 150 x 30 is appended
        to `graph.nodes` and bound to it. */
    method AddRoom(at: Point) returns (node: NodeItem)
      requires Registered(rooms)
      modifies this`counter, this`nodeItems, this`rooms, graph`nodes
      ensures fresh(node) && node.model != null && fresh(node.model)
      ensures node.name == RoomLabel(old(counter)) && counter == old(counter) + 1
      ensures node.pos == at && node.rect == NewNodeRect && node.edges == [] && node.movable
      ensures node.model.name == node.name && node.model.x == at.x && node.model.y == at.y
      ensures node.model.width == 150.0 && node.model.height == 30.0
      ensures graph.nodes == old(graph.nodes) + [node.model]
      ensures nodeItems == old(nodeItems) + {node} && rooms == old(rooms) + {node}
      ensures Registered(rooms)
    {
      node := new NodeItem(counter);
      counter := counter + 1;
      nodeItems := nodeItems + {node};
      node.SetPos(at);
      var record := new SimpleNode(node.name, node.pos.x, node.pos.y, 150.0, 30.0);
      graph.nodes := graph.nodes + [record];
      node.model := record;
      RegisteredAdd(rooms, node);
      rooms := rooms + {node};
    }

    /** `mouseDoubleClickEvent`: with rooms under the mouse (`hits`, topmost
        first) the topmost one opens its edit dialog and nothing is created;
        over empty canvas a new room is added at `at`. */
    method DoubleClick(hits: seq<NodeItem>, at: Point, accepted: bool, text: string) returns (created: NodeItem?)
      requires Registered(rooms)
      modifies this`counter, this`nodeItems, this`rooms, graph`nodes, if hits == [] then {} else {hits[0]}
      ensures hits != [] ==> created == null && graph.nodes == old(graph.nodes) && nodeItems == old(nodeItems) && counter == old(counter)
      ensures hits != [] && accepted && Strip(text) != "" ==> hits[0].name == Strip(text)
      ensures hits != [] ==> hits[0].edges == old(hits[0].edges) && hits[0].model == old(hits[0].model)
      ensures hits == [] ==> created != null && fresh(created) && created.model != null
      ensures hits == [] ==> created.name == RoomLabel(old(counter)) && created.pos == at && graph.nodes == old(graph.nodes) + [created.model]
      ensures hits == [] ==> nodeItems == old(nodeItems) + {created} && counter == old(counter) + 1
      ensures Registered(rooms)
    {
      if hits != [] {
        hits[0].OpenEditDialog(accepted, text);
        return null;
      }
      created := AddRoom(at);
    }

    /** A new connection from room `a` to room `b`, as the end of a right-drag
        makes it: `Edge(a, b)` registers it in both connection lists, a graph
        edge between the two bound graph nodes is appended to `graph.edges`
        and bound to it, and it is routed. */
    method Connect(a: NodeItem, b: NodeItem) returns (edge: EdgeItem)
      requires Registered(rooms) && a in rooms && b in rooms
      requires a.model != null && b.model != null
      modifies this`edgeItems, graph`edges, a`edges, b`edges
      ensures fresh(edge) && edge.source == a && edge.dest == b && edge.name == None
      ensures edge.model != null && fresh(edge.model)
      ensures edge.model.source == a.model && edge.model.target == b.model && edge.model.name == None
      ensures edge.Routed()
      ensures a != b ==> a.edges == old(a.edges) + [edge] && b.edges == old(b.edges) + [edge]
      ensures a == b ==> a.edges == old(a.edges) + [edge, edge]
      ensures edgeItems == old(edgeItems) + {edge} && graph.edges == old(graph.edges) + [edge.model]
      ensures Registered(rooms)
    {
      edge := new EdgeItem(a, b);
      assert Registered(rooms);
      edgeItems := edgeItems + {edge};
      var record := new SimpleEdge(a.model, b.model, None);
      graph.edges := graph.edges + [record];
      edge.model := record;
      edge.Adjust();
    }

    /** `ViewClass.mousePressEvent` with the right button: over a room (`hits`,
        topmost first) a connection drag starts from the topmost one, which
        stops being movable for the drag; elsewhere nothing changes here. */
    method RightPress(hits: seq<NodeItem>)
      modifies this`dragStart, (if hits == [] then {} else {hits[0]})`movable
      ensures hits != [] ==> dragStart == hits[0] && !hits[0].movable
      ensures hits == [] ==> dragStart == old(dragStart)
    {
      if hits != [] {
        dragStart := hits[0];
        hits[0].movable := false;
      }
    }

    /** `ViewClass.mouseReleaseEvent` at the end of a drag: the first room under
        the mouse other than the start room (`hits`, topmost first) gets a
        new connection from the start room; with none there is no connection.
        Either way the start room is movable again and the drag is over. */
    method Release(hits: seq<NodeItem>) returns (edge: EdgeItem?)
      requires Registered(rooms)
      requires dragStart != null ==> dragStart in rooms && dragStart.model != null
      requires forall k :: 0 <= k < |hits| ==> hits[k] in rooms && hits[k].model != null
      modifies this`dragStart, this`edgeItems, graph`edges, rooms`edges, (if dragStart == null then {} else {dragStart})`movable
      ensures dragStart == null && Registered(rooms)
      ensures old(dragStart) != null ==> old(dragStart).movable
      ensures old(dragStart) == null || FirstOther(hits, old(dragStart)).None? ==>
                edge == null && edgeItems == old(edgeItems) && graph.edges == old(graph.edges)
      ensures old(dragStart) != null && FirstOther(hits, old(dragStart)).Some? ==>
                var dest := hits[FirstOther(hits, old(dragStart)).value];
                edge != null && fresh(edge) && edge.source == old(dragStart) && edge.dest == dest &&
                edge.source != edge.dest && edge.Routed() &&
                edge.model != null && edge.model.source == edge.source.model && edge.model.target == dest.model &&
                edge.source.edges == old(dragStart.edges) + [edge] && dest.edges == old(dest.edges) + [edge] &&
                edgeItems == old(edgeItems) + {edge} && graph.edges == old(graph.edges) + [edge.model]
    {
      edge := null;
      if dragStart == null {
        return;
      }
      var start := dragStart;
      var dest := DropTarget(hits, start);
      // The start room is made movable and the drag ended before the
      // connection is made; neither touches what `Connect` changes.
      start.movable := true;
      dragStart := null;
      if dest != null {
        edge := Connect(start, dest);
      }
    }

    /** The loop of `mouseReleaseEvent`: the first room under the mouse
        that is not the start room, or none. */
    static method DropTarget(hits: seq<NodeItem>, start: NodeItem) returns (dest: NodeItem?)
      ensures FirstOther(hits, start).None? ==> dest == null
      ensures FirstOther(hits, start).Some? ==> dest == hits[FirstOther(hits, start).value]
    {
      dest := null;
      var j := 0;
      while j < |hits|
        invariant 0 <= j <= |hits|
        invariant forall k :: 0 <= k < j ==> hits[k] == start
      {
        if hits[j] != start {
          dest := hits[j];
          break;
        }
        j := j + 1;
      }
      assert dest != null ==> j < |hits| && dest == hits[j] && FirstOther(hits, start) == Some(j);
      assert dest == null ==> FirstOther(hits, start).None?;
    }

    /** `SceneClass.mousePressEvent` with the right button and exactly two
        selected rooms, as written: the connection is made, put on the canvas
        and registered in both rooms, and then appending to the nonexistent
        `self.model` fails, so no graph edge is appended or bound.  With any
        other number of selected rooms nothing happens. */
    method PressWithTwoSelected(selected: seq<NodeItem>) returns (edge: EdgeItem?, r: Result<()>)
      requires Registered(rooms) && forall k :: 0 <= k < |selected| ==> selected[k] in rooms
      modifies this`edgeItems, selected`edges
      ensures |selected| != 2 ==> r.Ok? && edge == null && edgeItems == old(edgeItems)
      ensures |selected| != 2 ==> forall k :: 0 <= k < |selected| ==> selected[k].edges == old(selected[k].edges)
      ensures |selected| == 2 ==> r == Err("AttributeError") && edge != null && fresh(edge) && edge.model == null
      ensures |selected| == 2 ==> edgeItems == old(edgeItems) + {edge} && edge in selected[0].edges && edge in selected[1].edges
      ensures graph.edges == old(graph.edges) && Registered(rooms)
    {
      if |selected| != 2 {
        return null, Ok(());
      }
      edge := new EdgeItem(selected[0], selected[1]);
      edgeItems := edgeItems + {edge};
      r := Err("AttributeError");
    }

    /** The evidently intended two-selection press: the same connection, with
        its graph edge appended to `graph.edges` and bound, as a drag makes it. */
    method PressWithTwoSelectedIntended(selected: seq<NodeItem>) returns (edge: EdgeItem?)
      requires Registered(rooms) && forall k :: 0 <= k < |selected| ==> selected[k] in rooms && selected[k].model != null
      modifies this`edgeItems, graph`edges, selected`edges
      ensures |selected| != 2 ==> edge == null && edgeItems == old(edgeItems) && graph.edges == old(graph.edges)
      ensures |selected| == 2 ==> edge != null && fresh(edge) && edge.source == selected[0] && edge.dest == selected[1]
      ensures |selected| == 2 ==> edge.model != null && edge.model.source == selected[0].model && edge.model.target == selected[1].model
      ensures |selected| == 2 ==> edgeItems == old(edgeItems) + {edge} && graph.edges == old(graph.edges) + [edge.model]
      ensures Registered(rooms)
    {
      if |selected| != 2 {
        return null;
      }
      edge := Connect(selected[0], selected[1]);
    }

    /** One room of `loadGraph`, as written: `Node()` takes the next counter
        label, is bound to `record`, placed at its position and given
        `setRect(0, 0, width, height)`.  The saved name is not shown. */
    method LoadRoomAsWritten(record: SimpleNode) returns (node: NodeItem)
      requires Registered(rooms)
      modifies this`counter, this`nodeItems, this`rooms, record
      ensures fresh(node) && node.model == record && node.edges == []
      ensures node.name == RoomLabel(old(counter)) && counter == old(counter) + 1
      ensures node.pos == Point(record.x, record.y) && node.rect == LoadedRectAsWritten(record.width, record.height)
      ensures RecordOf(record) == old(RecordOf(record))
      ensures nodeItems == old(nodeItems) + {node} && rooms == old(rooms) + {node} && Registered(rooms)
    {
      node := new NodeItem(counter);
      counter := counter + 1;
      node.model := record;
      nodeItems := nodeItems + {node};
      node.SetPos(Point(record.x, record.y));
      assert Registered(rooms);
      node.SetRect(0.0, 0.0, record.width, record.height);
      RegisteredAdd(rooms, node);
      rooms := rooms + {node};
    }

    /** One room of the evidently intended `loadGraph`: as written, but the
        room shows its saved name and keeps the corner of a room made in the
        editor, so saving and loading gives back what was on the canvas. */
    method LoadRoom(record: SimpleNode) returns (node: NodeItem)
      requires Registered(rooms)
      modifies this`counter, this`nodeItems, this`rooms, record
      ensures fresh(node) && node.model == record && node.edges == []
      ensures node.name == record.name && node.labelText == record.name && counter == old(counter) + 1
      ensures node.pos == Point(record.x, record.y) && node.rect == LoadedRect(record.width, record.height)
      ensures RecordOf(record) == old(RecordOf(record))
      ensures nodeItems == old(nodeItems) + {node} && rooms == old(rooms) + {node} && Registered(rooms)
    {
      node := new NodeItem(counter);
      counter := counter + 1;
      node.model := record;
      node.name := record.name;
      node.labelText := record.name;
      nodeItems := nodeItems + {node};
      node.SetPos(Point(record.x, record.y));
      assert Registered(rooms);
      node.SetRect(NewNodeRect.x, NewNodeRect.y, record.width, record.height);
      RegisteredAdd(rooms, node);
      rooms := rooms + {node};
    }

    /** One pass of the first loop of `loadGraph`, as written: the room for
        `nodes[|items|]` joins the rooms loaded before it, taking the counter
        label that follows theirs. */
    method LoadNextRoom(nodes: seq<SimpleNode>, items: seq<NodeItem>, ghost base: nat) returns (items': seq<NodeItem>)
      requires Registered(rooms) && |items| < |nodes| && counter == base + |items|
      requires forall k :: 0 <= k < |items| ==> items[k].model == nodes[k] && items[k].edges == [] && items[k] in rooms
      requires forall k :: 0 <= k < |items| ==> items[k].name == RoomLabel(base + k)
      requires forall k :: 0 <= k < |items| ==> items[k].pos == Point(nodes[k].x, nodes[k].y) && items[k].rect == LoadedRectAsWritten(nodes[k].width, nodes[k].height)
      modifies this`counter, this`nodeItems, this`rooms, nodes[|items|]
      ensures Registered(rooms) && |items'| == |items| + 1 && items'[..|items|] == items && counter == base + |items'|
      ensures fresh(items'[|items|])
      ensures forall k :: 0 <= k < |items'| ==> items'[k].model == nodes[k] && items'[k].edges == [] && items'[k] in rooms
      ensures forall k :: 0 <= k < |items'| ==> items'[k].name == RoomLabel(base + k)
      ensures forall k :: 0 <= k < |items'| ==> items'[k].pos == Point(nodes[k].x, nodes[k].y) && items'[k].rect == LoadedRectAsWritten(nodes[k].width, nodes[k].height)
      ensures forall k :: 0 <= k < |nodes| ==> RecordOf(nodes[k]) == old(RecordOf(nodes[k]))
      ensures nodeItems == old(nodeItems) + {items'[|items|]}
    {
      var node := LoadRoomAsWritten(nodes[|items|]);
      items' := items + [node];
    }

    /** The first loop of `loadGraph`, as written: one room per graph node, in
        order; room `k` shows the `k`-th counter label from the current
        counter and has the rectangle `(0, 0, width, height)`. */
    method LoadRooms(nodes: seq<SimpleNode>) returns (items: seq<NodeItem>)
      requires Registered(rooms)
      modifies this`counter, this`nodeItems, this`rooms, nodes
      ensures |items| == |nodes| && counter == old(counter) + |nodes|
      ensures forall k :: 0 <= k < |items| ==> fresh(items[k]) && items[k].model == nodes[k] && items[k].name == RoomLabel(old(counter) + k) && items[k].edges == []
      ensures forall k :: 0 <= k < |items| ==> items[k].pos == Point(nodes[k].x, nodes[k].y) && items[k].rect == LoadedRectAsWritten(nodes[k].width, nodes[k].height)
      ensures forall k :: 0 <= k < |nodes| ==> RecordOf(nodes[k]) == old(RecordOf(nodes[k]))
      ensures nodeItems == old(nodeItems) + set k | 0 <= k < |items| :: items[k]
      ensures forall k :: 0 <= k < |items| ==> items[k] in rooms
      ensures Registered(rooms)
    {
      items := [];
      ghost var base := counter;
      var i := 0;
      while i < |nodes|
        invariant 0 <= i <= |nodes| && |items| == i && counter == base + i
        invariant Registered(rooms)
        invariant forall k :: 0 <= k < i ==> fresh(items[k])
        invariant forall k :: 0 <= k < i ==> items[k].model == nodes[k] && items[k].edges == [] && items[k] in rooms
        invariant forall k :: 0 <= k < i ==> items[k].name == RoomLabel(base + k)
        invariant forall k :: 0 <= k < i ==> items[k].pos == Point(nodes[k].x, nodes[k].y) && items[k].rect == LoadedRectAsWritten(nodes[k].width, nodes[k].height)
        invariant forall k :: 0 <= k < |nodes| ==> RecordOf(nodes[k]) == old(RecordOf(nodes[k]))
        invariant nodeItems == old(nodeItems) + set k | 0 <= k < i :: items[k]
      {
        ghost var prev := items;
        items := LoadNextRoom(nodes, items, base);
        IndexedAppend(prev, items);
        i := i + 1;
      }
    }

    /** One pass of the first loop of the evidently intended `loadGraph`: the
        room for `nodes[|items|]` joins the rooms loaded before it. */
    method LoadNextIntendedRoom(nodes: seq<SimpleNode>, items: seq<NodeItem>, ghost base: nat) returns (items': seq<NodeItem>)
      requires Registered(rooms) && |items| < |nodes| && counter == base + |items|
      requires forall k :: 0 <= k < |items| ==> items[k].model == nodes[k] && items[k].edges == [] && items[k] in rooms
      requires forall k :: 0 <= k < |items| ==> items[k].name == nodes[k].name
      requires forall k :: 0 <= k < |items| ==> items[k].pos == Point(nodes[k].x, nodes[k].y) && items[k].rect == LoadedRect(nodes[k].width, nodes[k].height)
      modifies this`counter, this`nodeItems, this`rooms, nodes[|items|]
      ensures Registered(rooms) && |items'| == |items| + 1 && items'[..|items|] == items && counter == base + |items'|
      ensures fresh(items'[|items|])
      ensures forall k :: 0 <= k < |items'| ==> items'[k].model == nodes[k] && items'[k].edges == [] && items'[k] in rooms
      ensures forall k :: 0 <= k < |items'| ==> items'[k].name == nodes[k].name
      ensures forall k :: 0 <= k < |items'| ==> items'[k].pos == Point(nodes[k].x, nodes[k].y) && items'[k].rect == LoadedRect(nodes[k].width, nodes[k].height)
      ensures forall k :: 0 <= k < |nodes| ==> RecordOf(nodes[k]) == old(RecordOf(nodes[k]))
      ensures nodeItems == old(nodeItems) + {items'[|items|]}
    {
      var node := LoadRoom(nodes[|items|]);
      items' := items + [node];
    }

    /** The first loop of the evidently intended `loadGraph`: one room per graph
        node, in order, each showing its saved name and keeping its saved
        rectangle. */
    method LoadRoomsIntended(nodes: seq<SimpleNode>) returns (items: seq<NodeItem>)
      requires Registered(rooms)
      modifies this`counter, this`nodeItems, this`rooms, nodes
      ensures |items| == |nodes| && counter == old(counter) + |nodes|
      ensures forall k :: 0 <= k < |items| ==> fresh(items[k]) && items[k].model == nodes[k] && items[k].name == nodes[k].name && items[k].edges == []
      ensures forall k :: 0 <= k < |items| ==> items[k].pos == Point(nodes[k].x, nodes[k].y) && items[k].rect == LoadedRect(nodes[k].width, nodes[k].height)
      ensures forall k :: 0 <= k < |nodes| ==> RecordOf(nodes[k]) == old(RecordOf(nodes[k]))
      ensures nodeItems == old(nodeItems) + set k | 0 <= k < |items| :: items[k]
      ensures forall k :: 0 <= k < |items| ==> items[k] in rooms
      ensures Registered(rooms)
    {
      items := [];
      ghost var base := counter;
      var i := 0;
      while i < |nodes|
        invariant 0 <= i <= |nodes| && |items| == i && counter == base + i
        invariant Registered(rooms)
        invariant forall k :: 0 <= k < i ==> fresh(items[k])
        invariant forall k :: 0 <= k < i ==> items[k].model == nodes[k] && items[k].edges == [] && items[k] in rooms
        invariant forall k :: 0 <= k < i ==> items[k].name == nodes[k].name
        invariant forall k :: 0 <= k < i ==> items[k].pos == Point(nodes[k].x, nodes[k].y) && items[k].rect == LoadedRect(nodes[k].width, nodes[k].height)
        invariant forall k :: 0 <= k < |nodes| ==> RecordOf(nodes[k]) == old(RecordOf(nodes[k]))
        invariant nodeItems == old(nodeItems) + set k | 0 <= k < i :: items[k]
      {
        ghost var prev := items;
        items := LoadNextIntendedRoom(nodes, items, base);
        IndexedAppend(prev, items);
        i := i + 1;
      }
    }

    /** One connection of `loadGraph`: `Edge(a, b)` registered in both rooms,
        named and bound as the graph edge `record`, put on the canvas and routed. */
    method LoadLink(a: NodeItem, b: NodeItem, record: SimpleEdge) returns (link: EdgeItem)
      requires Registered(rooms) && a in rooms && b in rooms
      modifies this`edgeItems, a`edges, b`edges
      ensures fresh(link) && link.source == a && link.dest == b && link.model == record && link.name == record.name
      ensures link.Routed()
      ensures a != b ==> a.edges == old(a.edges) + [link] && b.edges == old(b.edges) + [link]
      ensures a == b ==> a.edges == old(a.edges) + [link, link]
      ensures edgeItems == old(edgeItems) + {link} && Registered(rooms)
    {
      link := new EdgeItem(a, b);
      assert Registered(rooms);
      link.name := record.name;
      link.model := record;
      edgeItems := edgeItems + {link};
      link.Adjust();
    }

    /** One pass of the second loop of `loadGraph`: the connection for graph
        edge `edges[j]`, or ValueError when an endpoint is not among `nodes`. */
    method LoadNextLink(items: seq<NodeItem>, nodes: seq<SimpleNode>, edges: seq<SimpleEdge>, j: nat, links: seq<EdgeItem>)
      returns (links': seq<EdgeItem>, r: Result<()>)
      requires Registered(rooms) && |items| == |nodes| && j < |edges| && |links| == j
      requires forall k :: 0 <= k < |items| ==> items[k] in rooms
      modifies this`edgeItems, items`edges
      ensures r.Ok? <==> edges[j].source in nodes && edges[j].target in nodes
      ensures r.Ok? ==> |links'| == j + 1 && links' == links + [links'[j]]
      ensures r.Ok? ==> edgeItems == old(edgeItems) + {links'[j]} && fresh(links'[j])
      ensures r.Ok? ==> links'[j].model == edges[j] && links'[j].name == edges[j].name
      ensures r.Ok? ==> links'[j].source == items[IndexOf(nodes, edges[j].source).value]
      ensures r.Ok? ==> links'[j].dest == items[IndexOf(nodes, edges[j].target).value]
      ensures Registered(rooms)
    {
      links' := links;
      var si := IndexOf(nodes, edges[j].source);
      var ti := IndexOf(nodes, edges[j].target);
      if si.None? || ti.None? {
        return links', Err("ValueError");
      }
      var link := LoadLink(items[si.value], items[ti.value], edges[j]);
      links' := links + [link];
      r := Ok(());
    }

    /** The second loop of `loadGraph`: one loaded connection per graph edge,
        between the rooms at the positions of its endpoints in `nodes`. */
    method LoadLinks(items: seq<NodeItem>, nodes: seq<SimpleNode>, edges: seq<SimpleEdge>) returns (links: seq<EdgeItem>, r: Result<()>)
      requires Registered(rooms) && |items| == |nodes|
      requires forall k :: 0 <= k < |items| ==> items[k] in rooms
      modifies this`edgeItems, items`edges
      ensures r.Ok? <==> forall j :: 0 <= j < |edges| ==> edges[j].source in nodes && edges[j].target in nodes
      ensures r.Ok? ==> |links| == |edges| && edgeItems == old(edgeItems) + set l | l in links
      ensures r.Ok? ==> forall j :: 0 <= j < |links| ==>
                fresh(links[j]) && links[j].model == edges[j] && links[j].name == edges[j].name &&
                links[j].source == items[IndexOf(nodes, edges[j].source).value] &&
                links[j].dest == items[IndexOf(nodes, edges[j].target).value]
      ensures Registered(rooms)
    {
      links := [];
      r := Ok(());
      var j := 0;
      while j < |edges|
        invariant 0 <= j <= |edges| && |links| == j && r.Ok?
        invariant Registered(rooms)
        invariant forall k :: 0 <= k < j ==> edges[k].source in nodes && edges[k].target in nodes
        invariant edgeItems == old(edgeItems) + set l | l in links
        invariant forall k :: 0 <= k < j ==>
                    fresh(links[k]) && links[k].model == edges[k] && links[k].name == edges[k].name &&
                    links[k].source == items[IndexOf(nodes, edges[k].source).value] &&
                    links[k].dest == items[IndexOf(nodes, edges[k].target).value]
      {
        ghost var prev := links;
        links, r := LoadNextLink(items, nodes, edges, j, links);
        if r.Err? {
          assert !(edges[j].source in nodes && edges[j].target in nodes);
          return;
        }
        ElementsAppend(prev, links[j]);
        j := j + 1;
      }
    }

    /** `WindowClass.loadGraph` with a graph read from a file: the canvas is
        cleared, the graph becomes the scene's graph, one room is loaded per
        graph node in order (with the next counter label and the rectangle
        `(0, 0, width, height)`), and one connection per graph edge joins the rooms
        of the positions of its two endpoints in `graph.nodes`, carrying its
        name and bound to it.  An endpoint missing from `graph.nodes` fails as
        `list.index` does. */
    method LoadGraph(g: SimpleGraph) returns (items: seq<NodeItem>, links: seq<EdgeItem>, r: Result<()>)
      requires Registered(rooms)
      modifies this`graph, this`counter, this`nodeItems, this`edgeItems, this`rooms, g.nodes, rooms`edges
      ensures graph == g && Registered(rooms)
      ensures |items| == |g.nodes| && counter == old(counter) + |g.nodes|
      ensures forall k :: 0 <= k < |items| ==> fresh(items[k]) && items[k].model == g.nodes[k] && items[k].name == RoomLabel(old(counter) + k)
      ensures forall k :: 0 <= k < |items| ==> items[k].pos == Point(g.nodes[k].x, g.nodes[k].y) && items[k].rect == LoadedRectAsWritten(g.nodes[k].width, g.nodes[k].height)
      ensures forall k :: 0 <= k < |g.nodes| ==> RecordOf(g.nodes[k]) == old(RecordOf(g.nodes[k]))
      ensures nodeItems == set k | 0 <= k < |items| :: items[k]
      ensures r.Ok? <==> forall j :: 0 <= j < |g.edges| ==> g.edges[j].source in g.nodes && g.edges[j].target in g.nodes
      ensures r.Ok? ==> |links| == |g.edges| && edgeItems == set l | l in links
      ensures r.Ok? ==> forall j :: 0 <= j < |links| ==>
                fresh(links[j]) && links[j].model == g.edges[j] && links[j].name == g.edges[j].name &&
                links[j].source == items[IndexOf(g.nodes, g.edges[j].source).value] &&
                links[j].dest == items[IndexOf(g.nodes, g.edges[j].target).value]
    {
      graph := g;
      nodeItems := {};
      edgeItems := {};
      items := LoadRooms(g.nodes);
      links, r := LoadLinks(items, g.nodes, g.edges);
    }

    /** The evidently intended `loadGraph`, with each room showing its saved
        name and rectangle; otherwise as `LoadGraph`: the canvas is
        cleared, the graph becomes the scene's graph, one room is loaded per
        graph node in order, and one connection per graph edge joins the rooms
        of the positions of its two endpoints in `graph.nodes`, carrying its
        name and bound to it.  An endpoint missing from `graph.nodes` fails as
        `list.index` does. */
    method LoadGraphIntended(g: SimpleGraph) returns (items: seq<NodeItem>, links: seq<EdgeItem>, r: Result<()>)
      requires Registered(rooms)
      modifies this`graph, this`counter, this`nodeItems, this`edgeItems, this`rooms, g.nodes, rooms`edges
      ensures graph == g && Registered(rooms)
      ensures |items| == |g.nodes| && counter == old(counter) + |g.nodes|
      ensures forall k :: 0 <= k < |items| ==> fresh(items[k]) && items[k].model == g.nodes[k] && items[k].name == g.nodes[k].name
      ensures forall k :: 0 <= k < |items| ==> items[k].pos == Point(g.nodes[k].x, g.nodes[k].y) && items[k].rect == LoadedRect(g.nodes[k].width, g.nodes[k].height)
      ensures forall k :: 0 <= k < |g.nodes| ==> RecordOf(g.nodes[k]) == old(RecordOf(g.nodes[k]))
      ensures nodeItems == set k | 0 <= k < |items| :: items[k]
      ensures r.Ok? <==> forall j :: 0 <= j < |g.edges| ==> g.edges[j].source in g.nodes && g.edges[j].target in g.nodes
      ensures r.Ok? ==> |links| == |g.edges| && edgeItems == set l | l in links
      ensures r.Ok? ==> forall j :: 0 <= j < |links| ==>
                fresh(links[j]) && links[j].model == g.edges[j] && links[j].name == g.edges[j].name &&
                links[j].source == items[IndexOf(g.nodes, g.edges[j].source).value] &&
                links[j].dest == items[IndexOf(g.nodes, g.edges[j].target).value]
    {
      graph := g;
      nodeItems := {};
      edgeItems := {};
      items := LoadRoomsIntended(g.nodes);
      links, r := LoadLinks(items, g.nodes, g.edges);
    }
  }

  /** An inline rename of a bound room leaves its graph node with the old
      name, so saving writes a name the canvas no longer shows. */
  method RenameLeavesRecordStale() returns (node: NodeItem)
    ensures node.model != null && node.name == "Kitchen" && node.model.name == RoomLabel(1)
    ensures node.model.name != node.name
  {
    node := new NodeItem(1);
    var record := new SimpleNode(node.name, 0.0, 0.0, 150.0, 30.0);
    node.model := record;
    node.FocusOut("Kitchen");
  }

  /** A loaded room shows the next counter label instead of the name saved
      with its graph node. */
  method LoadShowsCounterLabel() returns (node: NodeItem)
    ensures node.model != null && node.model.name == "Kitchen" && node.name == RoomLabel(1)
    ensures node.name != node.model.name
  {
    var editor := new Editor();
    var record := new SimpleNode("Kitchen", 0.0, 0.0, 150.0, 30.0);
    node := editor.LoadRoomAsWritten(record);
  }
}
