/** The scene items of the diagram editor in Views/test.py: a room rectangle
    (`Node`) and a connection line (`Edge`), each bound to its record in the
    persistent graph.  Moving or resizing a room writes through to its record
    and re-routes every attached connection. */
module ViewItems {
  import opened Wrappers
  import opened PyOps
  import opened Geometry
  import opened GraphModel
  import opened Colors

  /** The rectangle of a newly created room, centred on its position. */
  const NewNodeRect: Rect := Rect(-75.0, -15.0, 150.0, 30.0)

  /** `ResizeHandle.SIZE`. */
  const HandleSize: real := 10.0

  /** The smallest size a room can be dragged to. */
  const MinWidth: real := 50.0
  const MinHeight: real := 20.0

  /** `ResizeHandle.updatePosition`: the handle sits inside the bottom-right corner. */
  function HandlePosition(r: Rect): Point {
    Point(r.Right() - HandleSize, r.Bottom() - HandleSize)
  }

  /** The label every new room gets: "Room " and the value of the shared counter. */
  function RoomLabel(id: nat): (s: string)
    ensures |s| > 5 && s[..5] == "Room "
  {
    "Room " + NatToString(id)
  }

  /** Distinct counter values give distinct room labels. */
  lemma RoomLabelsDistinct(i: nat, j: nat)
    requires i != j
    ensures RoomLabel(i) != RoomLabel(j)
  {
    if RoomLabel(i) == RoomLabel(j) {
      assert NatToString(i) == RoomLabel(i)[5..];
      NatToStringInjective(i, j);
    }
  }

  class NodeItem {
    var pos: Point
    var rect: Rect
    var name: string
    var labelText: string
    var edges: seq<EdgeItem>
    var movable: bool
    var handlePos: Point
    var model: SimpleNode?
    var brush: Color

    /** `Node()` with the shared counter at `id`: an unbound, movable, dark grey
        room at the origin with the centred default rectangle and no connections. */
    constructor (id: nat)
      ensures name == RoomLabel(id) && labelText == name
      ensures pos == Point(0.0, 0.0) && rect == NewNodeRect && handlePos == HandlePosition(NewNodeRect)
      ensures edges == [] && movable && model == null && brush == DarkGray
    {
      brush := DarkGray;
      pos := Point(0.0, 0.0);
      rect := NewNodeRect;
      name := RoomLabel(id);
      labelText := RoomLabel(id);
      edges := [];
      movable := true;
      handlePos := HandlePosition(NewNodeRect);
      model := null;
    }

    /** The connections attached to this room, as a set of objects for frames. */
    function EdgeSet(): set<EdgeItem>
      reads this
    {
      set e | e in edges
    }

    /** Every attached connection is routed from the current geometry of its two rooms. */
    predicate EdgesRouted()
      reads this, edges, set e | e in edges :: e.source, set e | e in edges :: e.dest
    {
      forall e :: e in edges ==> e.Routed()
    }

    /** `setPos` followed by `itemChange(ItemPositionHasChanged)`: re-route every
        attached connection and copy the position into the bound record. */
    method SetPos(p: Point)
      modifies this, model, edges`line, edges`indicator
      ensures pos == p && rect == old(rect) && name == old(name) && edges == old(edges) && model == old(model)
      ensures movable == old(movable) && handlePos == old(handlePos) && labelText == old(labelText)
      ensures model != null ==> model.x == p.x && model.y == p.y && model.name == old(model.name)
      ensures model != null ==> model.width == old(model.width) && model.height == old(model.height)
      ensures forall e :: e in edges ==> e.Routed() && e.model == old(e.model) && e.name == old(e.name)
    {
      pos := p;
      ReRoute();
      if model != null {
        model.x := p.x;
        model.y := p.y;
      }
    }

    /** `for edge in self.edges: edge.adjust()`. */
    method ReRoute()
      modifies edges`line, edges`indicator
      ensures forall e :: e in edges ==> e.Routed()
    {
      var es := edges;
      var i := 0;
      while i < |es|
        invariant 0 <= i <= |es|
        invariant forall j :: 0 <= j < i ==> es[j].Routed()
      {
        es[i].Adjust();
        i := i + 1;
      }
    }

    /** `Node.setRect`: the new rectangle, the handle moved to its corner, and the
        size copied into the bound record.  Connections are not re-routed here. */
    method SetRect(x: real, y: real, w: real, h: real)
      modifies this, model
      ensures rect == Rect(x, y, w, h) && handlePos == HandlePosition(rect)
      ensures pos == old(pos) && name == old(name) && labelText == old(labelText) && edges == old(edges)
      ensures movable == old(movable) && model == old(model)
      ensures model != null ==> model.width == w && model.height == h && model.x == old(model.x) && model.y == old(model.y) && model.name == old(model.name)
    {
      rect := Rect(x, y, w, h);
      handlePos := HandlePosition(rect);
      if model != null {
        model.width := w;
        model.height := h;
      }
    }

    /** `ResizeHandle.mouseMoveEvent` with the mouse at `at` in the room's own
        coordinates: the top-left corner stays, the size follows the mouse but
        not below 50 x 20, and every attached connection is re-routed. */
    method DragHandle(at: Point)
      modifies this, model, edges`line, edges`indicator
      ensures rect.Left() == old(rect.Left()) && rect.Top() == old(rect.Top())
      ensures rect.w == (if at.x - old(rect.Left()) > MinWidth then at.x - old(rect.Left()) else MinWidth)
      ensures rect.h == (if at.y - old(rect.Top()) > MinHeight then at.y - old(rect.Top()) else MinHeight)
      ensures rect.w >= MinWidth && rect.h >= MinHeight && handlePos == HandlePosition(rect)
      ensures pos == old(pos) && edges == old(edges) && model == old(model) && name == old(name)
      ensures model != null ==> model.width == rect.w && model.height == rect.h && model.x == old(model.x) && model.y == old(model.y)
      ensures forall e :: e in edges ==> e.Routed()
    {
      var left := rect.Left();
      var top := rect.Top();
      var w := if at.x - left > MinWidth then at.x - left else MinWidth;
      var h := if at.y - top > MinHeight then at.y - top else MinHeight;
      SetRect(left, top, w, h);
      handlePos := Point(left + w - HandleSize, top + h - HandleSize);
      ReRoute();
    }

    /** `focusOutEvent` after an inline rename: the stripped label text, or the old
        name when it is blank.  The bound record keeps its old name. */
    method FocusOut(text: string)
      modifies this
      ensures Strip(text) != "" ==> name == Strip(text)
      ensures Strip(text) == "" ==> name == old(name)
      ensures labelText == name && model == old(model)
      ensures model != null ==> model.name == old(model.name)
      ensures pos == old(pos) && rect == old(rect) && edges == old(edges)
    {
      var t := Strip(text);
      if t != "" {
        name := t;
      }
      labelText := name;
    }

    /** `openEditDialog`: an accepted dialog with a non-blank name renames the room.
        The bound record keeps its old name. */
    method OpenEditDialog(accepted: bool, text: string)
      modifies this
      ensures accepted && Strip(text) != "" ==> name == Strip(text) && labelText == name
      ensures !(accepted && Strip(text) != "") ==> name == old(name) && labelText == old(labelText)
      ensures model == old(model) && (model != null ==> model.name == old(model.name))
      ensures pos == old(pos) && rect == old(rect) && edges == old(edges)
    {
      if accepted {
        var t := Strip(text);
        if t != "" {
          name := t;
          labelText := name;
        }
      }
    }

    /** The evidently intended inline rename: as `FocusOut`, and the bound record
        takes the new name, so a saved graph keeps what the room displays. */
    method FocusOutSynced(text: string)
      modifies this, model
      ensures Strip(text) != "" ==> name == Strip(text)
      ensures Strip(text) == "" ==> name == old(name)
      ensures labelText == name && model == old(model)
      ensures model != null ==> model.name == name && model.x == old(model.x) && model.y == old(model.y)
      ensures pos == old(pos) && rect == old(rect) && edges == old(edges)
    {
      FocusOut(text);
      if model != null {
        model.name := name;
      }
    }

    /** The evidently intended dialog rename: as `OpenEditDialog`, and the bound
        record takes the name the room displays. */
    method OpenEditDialogSynced(accepted: bool, text: string)
      modifies this, model
      ensures accepted && Strip(text) != "" ==> name == Strip(text) && labelText == name
      ensures !(accepted && Strip(text) != "") ==> name == old(name)
      ensures model == old(model) && (model != null && accepted && Strip(text) != "" ==> model.name == name)
      ensures pos == old(pos) && rect == old(rect) && edges == old(edges)
    {
      OpenEditDialog(accepted, text);
      if model != null && accepted && Strip(text) != "" {
        model.name := name;
      }
    }
  }

  class EdgeItem {
    const source: NodeItem
    const dest: NodeItem
    var name: Option<string>
    var line: Line
    var indicator: Option<Point>
    var model: SimpleEdge?

    /** `Edge(source, dest)`: an unnamed, unbound connection registered in the
        connection lists of both rooms (twice in one list when they are the same room). */
    constructor (source: NodeItem, dest: NodeItem)
      modifies source`edges, dest`edges
      ensures this.source == source && this.dest == dest && name == None && model == null && indicator == None
      ensures source != dest ==> source.edges == old(source.edges) + [this] && dest.edges == old(dest.edges) + [this]
      ensures source == dest ==> source.edges == old(source.edges) + [this, this]
    {
      this.source := source;
      this.dest := dest;
      name := None;
      line := Line(Point(0.0, 0.0), Point(0.0, 0.0));
      indicator := None;
      model := null;
      new;
      source.edges := source.edges + [this];
      dest.edges := dest.edges + [this];
    }

    /** The line and marker are those `adjust` derives from the two rooms' geometry. */
    predicate Routed()
      reads this, source, dest
    {
      Routing(line, indicator) == Route(source.pos, source.rect, dest.pos, dest.rect)
    }

    /** `showIndicatorCircle`: any previous marker is replaced by one at `center`. */
    method ShowIndicatorCircle(center: Point)
      modifies this`indicator
      ensures indicator == Some(center)
    {
      indicator := Some(center);
    }

    /** `removeIndicatorCircle`: no marker remains. */
    method RemoveIndicatorCircle()
      modifies this`indicator
      ensures indicator == None
    {
      indicator := None;
    }

    /** `adjust`: clip the centre-to-centre line to both rooms, falling back to the
        centres, then draw it or, when shorter than 15, collapse it behind a marker. */
    method Adjust()
      modifies this`line, this`indicator
      ensures Routed()
    {
      var c1 := Plus(source.pos, source.rect.Center());
      var c2 := Plus(dest.pos, dest.rect.Center());
      var p1 := ClipToRect(SceneRect(source.pos, source.rect), Line(c1, c2));
      var p2 := ClipToRect(SceneRect(dest.pos, dest.rect), Line(c2, c1));
      var q1, q2;
      if Missing(p1) || Missing(p2) {
        q1, q2 := c1, c2;
      } else {
        q1, q2 := p1.value, p2.value;
      }
      if SquaredLength(q1, q2) < 225.0 {
        line := Line(q1, q1);
        ShowIndicatorCircle(Midpoint(q1, q2));
      } else {
        line := Line(q1, q2);
        RemoveIndicatorCircle();
      }
    }

    /** `Edge.openEditDialog`: an accepted dialog with a non-blank name renames the
        connection and its bound record, then re-routes it. */
    method OpenEditDialog(accepted: bool, text: string)
      modifies this, model
      ensures accepted && Strip(text) != "" ==> name == Some(Strip(text)) && (model != null ==> model.name == name)
      ensures accepted && Strip(text) != "" ==> Routed()
      ensures !(accepted && Strip(text) != "") ==> name == old(name) && line == old(line) && indicator == old(indicator)
      ensures model == old(model)
      ensures !(accepted && Strip(text) != "") && model != null ==> model.name == old(model.name)
      ensures model != null ==> model.source == old(model.source) && model.target == old(model.target)
    {
      if accepted {
        var t := Strip(text);
        if t != "" {
          name := Some(t);
          if model != null {
            model.name := Some(t);
          }
          Adjust();
        }
      }
    }
  }
}
