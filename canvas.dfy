// The page canvas (components/Canvas.tsx): converting a palette drop into
// logical coordinates, clearing the selection on the bare canvas, gating the
// node callbacks in read-only mode, and drawing the stored connections.

module Canvas {
  import opened Types
  import opened Document

  /** The logical page size every stored position refers to. */
  const LogicalWidth: real := 800.0
  const LogicalHeight: real := 1120.0

  /** The fixed offset from a node's position to its anchor point. */
  const Anchor: real := 40.0

  /** The canvas's on-screen bounding box. */
  datatype Rect = Rect(left: real, top: real, width: real, height: real)

  datatype Point = Point(x: real, y: real)

  /** The logical position of a node dropped at screen point (clientX, clientY):
      the pointer offset scaled by logical/visual size, less the anchor. */
  function DropPoint(clientX: real, clientY: real, rect: Rect): (p: Point)
    requires rect.width > 0.0 && rect.height > 0.0
    ensures rect.left + (p.x + Anchor) * rect.width / LogicalWidth == clientX
    ensures rect.top + (p.y + Anchor) * rect.height / LogicalHeight == clientY
  {
    Point((clientX - rect.left) * (LogicalWidth / rect.width) - Anchor,
          (clientY - rect.top) * (LogicalHeight / rect.height) - Anchor)
  }

  /** A drop at (120, 120) on a canvas shown at half size from the origin lands
      at logical (200, 200). */
  lemma DropAtHalfScale()
    ensures DropPoint(120.0, 120.0, Rect(0.0, 0.0, 400.0, 560.0)) == Point(200.0, 200.0)
  {
  }

  /** What a drag from the palette carries: the node type name (empty when
      absent), the raw custom-props text (empty when absent), and the outcome
      of `JSON.parse` on that text (None when it throws). */
  datatype DropData = DropData(nodeType: string, customPropsRaw: string, parsed: Option<Props>)

  /** The `onAddNode` call a drop makes. */
  datatype AddRequest = AddRequest(tag: string, x: real, y: real, customProps: Option<Props>)

  /** `handleDrop`: nothing in read-only mode or without a node type; a parse
      failure is swallowed and the node is still requested, without custom
      props. */
  function HandleDrop(readOnly: bool, data: DropData, clientX: real, clientY: real, rect: Rect)
    : (r: Option<AddRequest>)
    requires rect.width > 0.0 && rect.height > 0.0
    ensures r.Some? <==> !readOnly && data.nodeType != ""
    ensures r.Some? ==> r.value.tag == data.nodeType
    ensures r.Some? ==> Point(r.value.x, r.value.y) == DropPoint(clientX, clientY, rect)
    ensures r.Some? && data.customPropsRaw != "" && data.parsed.Some? ==> r.value.customProps == data.parsed
    ensures r.Some? && (data.customPropsRaw == "" || data.parsed.None?) ==> r.value.customProps.None?
  {
    if readOnly then None
    else
      var customProps := if data.customPropsRaw != "" then data.parsed else None;
      if data.nodeType == "" then None
      else
        var p := DropPoint(clientX, clientY, rect);
        Some(AddRequest(data.nodeType, p.x, p.y, customProps))
  }

  /** `handleMouseDown` on the canvas: true when it clears the selection,
      which is on the bare canvas and only when editing. */
  function ClearsSelection(readOnly: bool, onBareCanvas: bool): (r: bool)
    ensures r <==> !readOnly && onBareCanvas
  {
    if readOnly then false else onBareCanvas
  }

  // ---- node callbacks ----

  /** The callbacks a node raises. */
  datatype NodeEvent = Select | Move(x: real, y: real) | ToggleOpen | Connect | Delete | StartConnecting

  /** The editor callbacks the canvas forwards them to, tagged with the node id. */
  datatype CanvasAction =
    | SelectNode(id: NodeId)
    | UpdateNode(id: NodeId, patch: NodePatch)
    | ToggleNodeOpen(id: NodeId)
    | ConnectTo(id: NodeId)
    | DeleteNode(id: NodeId)
    | StartConnectingFrom(id: NodeId)

  function ActionTarget(a: CanvasAction): NodeId
  {
    a.id
  }

  /** The `!readOnly && ...` guards of the canvas: in read-only mode every
      callback but toggle-open is dropped; otherwise each is forwarded with
      the node's id. */
  function Route(readOnly: bool, id: NodeId, ev: NodeEvent): (r: Option<CanvasAction>)
    ensures readOnly ==> (r.Some? <==> ev.ToggleOpen?)
    ensures !readOnly ==> r.Some?
    ensures r.Some? ==> ActionTarget(r.value) == id
    ensures ev.Move? && r.Some? ==> r.value == UpdateNode(id, MovePatch(ev.x, ev.y))
    ensures ev.ToggleOpen? ==> r == Some(ToggleNodeOpen(id))
  {
    match ev
    case ToggleOpen => Some(ToggleNodeOpen(id))
    case _ =>
      if readOnly then None
      else match ev
        case Select => Some(SelectNode(id))
        case Move(x, y) => Some(UpdateNode(id, MovePatch(x, y)))
        case Connect => Some(ConnectTo(id))
        case Delete => Some(DeleteNode(id))
        case StartConnecting => Some(StartConnectingFrom(id))
  }

  // ---- connections ----

  /** `nodes.find(n => n.id === id)`. */
  function FindNode(nodes: seq<Node>, id: NodeId): (r: Option<Node>)
    ensures r.Some? ==> r.value in nodes && r.value.id == id
    ensures r.None? <==> forall i :: 0 <= i < |nodes| ==> nodes[i].id != id
  {
    if nodes == [] then None
    else if nodes[0].id == id then Some(nodes[0])
    else FindNode(nodes[1..], id)
  }

  /** Ids are clock readings and may repeat: the node found is the first one
      carrying the id. */
  lemma {:induction false} FindNodeFirst(nodes: seq<Node>, id: NodeId)
    ensures FindNode(nodes, id).Some? ==>
              exists i :: 0 <= i < |nodes| && nodes[i] == FindNode(nodes, id).value
                          && forall j :: 0 <= j < i ==> nodes[j].id != id
  {
    if nodes == [] || nodes[0].id == id {
      return;
    }
    var tail := nodes[1..];
    assert FindNode(nodes, id) == FindNode(tail, id);
    FindNodeFirst(tail, id);
    if FindNode(tail, id).Some? {
      var i :| 0 <= i < |tail| && tail[i] == FindNode(tail, id).value
               && forall j :: 0 <= j < i ==> tail[j].id != id;
      assert nodes[i + 1] == tail[i];
      forall j | 0 <= j < i + 1
        ensures nodes[j].id != id
      {
        if j > 0 {
          assert nodes[j] == tail[j - 1];
        }
      }
    }
  }

  /** A cubic curve: start, two control points, end. */
  datatype Curve = Curve(start: Point, c1: Point, c2: Point, end: Point)

  /** The path drawn between two nodes: anchor to anchor, both control points
      at the middle x, one at each end's height. */
  function CurveBetween(from: Node, to: Node): (c: Curve)
    ensures c.start == Point(from.x + Anchor, from.y + Anchor)
    ensures c.end == Point(to.x + Anchor, to.y + Anchor)
    ensures c.c1.x == c.c2.x && c.c1.x - c.start.x == c.end.x - c.c2.x
    ensures c.c1.y == c.start.y && c.c2.y == c.end.y
  {
    var x1 := from.x + Anchor;
    var y1 := from.y + Anchor;
    var x2 := to.x + Anchor;
    var y2 := to.y + Anchor;
    Curve(Point(x1, y1), Point((x1 + x2) / 2.0, y1), Point((x1 + x2) / 2.0, y2), Point(x2, y2))
  }

  /** A connection is drawn when both of its ends are on the page. */
  predicate Drawable(nodes: seq<Node>, c: Connection)
  {
    FindNode(nodes, c.from).Some? && FindNode(nodes, c.to).Some?
  }

  function CurveOf(nodes: seq<Node>, c: Connection): Curve
    requires Drawable(nodes, c)
  {
    CurveBetween(FindNode(nodes, c.from).value, FindNode(nodes, c.to).value)
  }

  /** The curves the canvas draws, in connection order: a connection with a
      missing end yields nothing (it stays stored). */
  function DrawnCurves(nodes: seq<Node>, conns: seq<Connection>): (r: seq<Curve>)
    ensures |r| <= |conns|
  {
    if conns == [] then []
    else (if Drawable(nodes, conns[0]) then [CurveOf(nodes, conns[0])] else [])
         + DrawnCurves(nodes, conns[1..])
  }

  /** Curves follow the stored connection order, one per stored copy: the
      curves of a concatenation are those of each part. */
  lemma {:induction false} DrawnCurvesAppend(nodes: seq<Node>, a: seq<Connection>, b: seq<Connection>)
    ensures DrawnCurves(nodes, a + b) == DrawnCurves(nodes, a) + DrawnCurves(nodes, b)
  {
    if a != [] {
      assert (a + b)[0] == a[0];
      assert (a + b)[1..] == a[1..] + b;
      DrawnCurvesAppend(nodes, a[1..], b);
    } else {
      assert a + b == b;
    }
  }

  /** One connection gives its curve when both ends are on the page and
      nothing otherwise; a connection stored twice is drawn twice. */
  lemma DrawnCurvesOne(nodes: seq<Node>, c: Connection)
    ensures DrawnCurves(nodes, [c]) == (if Drawable(nodes, c) then [CurveOf(nodes, c)] else [])
    ensures DrawnCurves(nodes, [c, c]) == DrawnCurves(nodes, [c]) + DrawnCurves(nodes, [c])
  {
    assert [c][1..] == [];
    assert [c, c] == [c] + [c];
    DrawnCurvesAppend(nodes, [c], [c]);
  }

  /** The drawn curves are exactly those of the connections whose two ends are
      on the page. */
  lemma {:induction false} DrawnCurvesExactly(nodes: seq<Node>, conns: seq<Connection>)
    ensures forall c :: c in conns && Drawable(nodes, c) ==> CurveOf(nodes, c) in DrawnCurves(nodes, conns)
    ensures forall k :: 0 <= k < |DrawnCurves(nodes, conns)| ==>
              exists c :: c in conns && Drawable(nodes, c) && DrawnCurves(nodes, conns)[k] == CurveOf(nodes, c)
  {
    if conns != [] {
      DrawnCurvesExactly(nodes, conns[1..]);
      var head := if Drawable(nodes, conns[0]) then [CurveOf(nodes, conns[0])] else [];
      var rest := DrawnCurves(nodes, conns[1..]);
      var r := DrawnCurves(nodes, conns);
      assert r == head + rest;
      assert forall c :: c in conns ==> c == conns[0] || c in conns[1..];
      forall c | c in conns && Drawable(nodes, c)
        ensures CurveOf(nodes, c) in r
      {
        if c == conns[0] {
          assert r[0] == CurveOf(nodes, c);
        } else {
          assert CurveOf(nodes, c) in rest;
        }
      }
      forall k | 0 <= k < |r|
        ensures exists c :: c in conns && Drawable(nodes, c) && r[k] == CurveOf(nodes, c)
      {
        if k < |head| {
          assert r[k] == CurveOf(nodes, conns[0]) && conns[0] in conns;
        } else {
          assert r[k] == rest[k - |head|];
          var c :| c in conns[1..] && Drawable(nodes, c) && rest[k - |head|] == CurveOf(nodes, c);
          assert c in conns;
        }
      }
    } else {
      assert DrawnCurves(nodes, conns) == [];
    }
  }

  /** Finding a surviving id after a delete finds the same node as before. */
  lemma {:induction false} FindAfterRemove(nodes: seq<Node>, removed: NodeId, id: NodeId)
    ensures FindNode(RemoveNodes(nodes, removed), id)
            == if id == removed then None else FindNode(nodes, id)
  {
    if nodes != [] {
      FindAfterRemove(nodes[1..], removed, id);
      var rest := RemoveNodes(nodes[1..], removed);
      if nodes[0].id != removed {
        assert RemoveNodes(nodes, removed) == [nodes[0]] + rest;
        assert ([nodes[0]] + rest)[1..] == rest;
      } else {
        assert RemoveNodes(nodes, removed) == rest;
      }
    }
  }

  /** Deleting a node keeps every connection but stops drawing exactly the
      ones that touch it; every other connection is drawn as before. */
  lemma DeleteHidesTouchingEdges(page: Page, removed: NodeId)
    ensures var after := DeleteFromPage(page, removed);
      && after.connections == page.connections
      && forall c :: c in page.connections ==>
           && (Drawable(after.nodes, c) <==> Drawable(page.nodes, c) && c.from != removed && c.to != removed)
           && (Drawable(after.nodes, c) ==> CurveOf(after.nodes, c) == CurveOf(page.nodes, c))
  {
    forall c | c in page.connections
      ensures var after := DeleteFromPage(page, removed);
        && (Drawable(after.nodes, c) <==> Drawable(page.nodes, c) && c.from != removed && c.to != removed)
        && (Drawable(after.nodes, c) ==> CurveOf(after.nodes, c) == CurveOf(page.nodes, c))
    {
      FindAfterRemove(page.nodes, removed, c.from);
      FindAfterRemove(page.nodes, removed, c.to);
    }
  }

  /** Deleting node 1 from a page with nodes 1 and 2 and the edge 1 -> 2 keeps
      the edge stored and draws nothing. */
  lemma DeleteKeepsDanglingEdge(a: Node, b: Node)
    requires a.id == 1 && b.id == 2
    ensures var page := Page(0, [a, b], [Connection(1, 2)]);
      var after := DeleteFromPage(page, 1);
      && after.nodes == [b]
      && after.connections == [Connection(1, 2)]
      && DrawnCurves(after.nodes, after.connections) == []
  {
    var after := DeleteFromPage(Page(0, [a, b], [Connection(1, 2)]), 1);
    assert RemoveNodes([b], 1) == [b];
    assert after.nodes == [b];
    assert FindNode([b], 1).None?;
  }
}
