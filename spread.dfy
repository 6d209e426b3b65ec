// Two-page spreads (App.tsx): the in-app preview (`BookPreview`) and the
// viewer script embedded in the exported standalone page. Both show pages
// `activeIdx` and `activeIdx + 1`, move by two, and draw ceil(n/2) dots.

module Spread {
  import opened Types

  // ---- the shared spread rules ----

  /** The previous button: back two pages unless already at the first spread. */
  function PrevTarget(activeIdx: int): (r: int)
    ensures r <= activeIdx
    ensures r == activeIdx <==> activeIdx <= 0
  {
    if activeIdx > 0 then activeIdx - 2 else activeIdx
  }

  /** The next button: on two pages while a later spread starts before the
      last page. */
  function NextTarget(activeIdx: int, pageCount: nat): (r: int)
    ensures r >= activeIdx
    ensures r == activeIdx <==> activeIdx >= pageCount - 2
  {
    if activeIdx < pageCount - 2 then activeIdx + 2 else activeIdx
  }

  predicate PrevDisabled(activeIdx: int)
  {
    activeIdx == 0
  }

  predicate NextDisabled(activeIdx: int, pageCount: nat)
  {
    activeIdx >= pageCount - 2
  }

  /** `Math.ceil(pageCount / 2)`: one dot per spread. */
  function DotCount(pageCount: nat): (r: nat)
    ensures 2 * r == pageCount || 2 * r == pageCount + 1
  {
    (pageCount + 1) / 2
  }

  /** `Math.floor(activeIdx / 2)`: the dot drawn as active. */
  function ActiveDot(activeIdx: nat): (r: nat)
    ensures 2 * r <= activeIdx < 2 * r + 2
  {
    activeIdx / 2
  }

  /** A dot's click shows the spread starting at page `2 * i`. */
  function DotTarget(i: nat): (r: nat)
    ensures ActiveDot(r) == i
  {
    2 * i
  }

  /** A spread start is even and names a page (or is 0 for an empty book). */
  predicate SpreadOk(activeIdx: int, pageCount: nat)
  {
    0 <= activeIdx && activeIdx % 2 == 0 && (activeIdx < pageCount || activeIdx == 0)
  }

  /** The buttons keep a spread start valid. */
  lemma NavigationKeepsSpread(activeIdx: int, pageCount: nat)
    requires SpreadOk(activeIdx, pageCount)
    ensures SpreadOk(PrevTarget(activeIdx), pageCount)
    ensures SpreadOk(NextTarget(activeIdx, pageCount), pageCount)
  {
  }

  /** Every dot opens a valid spread, and that spread lights the same dot. */
  lemma {:induction false} DotsKeepSpread(i: nat, pageCount: nat)
    requires i < DotCount(pageCount)
    ensures SpreadOk(DotTarget(i), pageCount)
    ensures ActiveDot(DotTarget(i)) == i
  {
    assert 2 * i < pageCount by {
      assert 2 * DotCount(pageCount) <= pageCount + 1;
    }
  }

  /** In a non-empty book exactly one dot is lit, the one whose spread is
      shown. */
  lemma OneActiveDot(activeIdx: int, pageCount: nat)
    requires SpreadOk(activeIdx, pageCount) && pageCount > 0
    ensures ActiveDot(activeIdx) < DotCount(pageCount)
    ensures DotTarget(ActiveDot(activeIdx)) == activeIdx
  {
  }

  /** A button is drawn disabled exactly when a click on it changes nothing. */
  lemma DisabledMeansNoMove(activeIdx: int, pageCount: nat)
    requires SpreadOk(activeIdx, pageCount)
    ensures PrevDisabled(activeIdx) <==> PrevTarget(activeIdx) == activeIdx
    ensures NextDisabled(activeIdx, pageCount) <==> NextTarget(activeIdx, pageCount) == activeIdx
  {
  }

  /** `pages[i]?.nodes || []`: the nodes a side of the spread shows. */
  function SideNodes(pages: seq<Page>, i: int): (r: seq<Node>)
    ensures 0 <= i < |pages| ==> r == pages[i].nodes
    ensures !(0 <= i < |pages|) ==> r == []
  {
    if 0 <= i < |pages| then pages[i].nodes else []
  }

  /** In a valid spread of a non-empty book the left page exists; the right
      one exists unless the left is the last page. */
  lemma SpreadSides(activeIdx: int, pageCount: nat)
    requires SpreadOk(activeIdx, pageCount) && pageCount > 0
    ensures activeIdx < pageCount
    ensures activeIdx + 1 < pageCount <==> activeIdx != pageCount - 1
  {
  }

  // ---- the in-app preview ----

  /** `BookPreview`'s spread index over a book of `pageCount` pages. */
  class BookPreview {
    const pageCount: nat
    var activeIdx: int

    ghost predicate Valid()
      reads this
    {
      SpreadOk(activeIdx, pageCount)
    }

    constructor (pageCount: nat)
      ensures Valid() && this.pageCount == pageCount && activeIdx == 0
    {
      this.pageCount := pageCount;
      activeIdx := 0;
    }

    method Prev()
      requires Valid()
      modifies this
      ensures Valid() && activeIdx == PrevTarget(old(activeIdx))
    {
      if activeIdx > 0 {
        activeIdx := activeIdx - 2;
      }
    }

    method Next()
      requires Valid()
      modifies this
      ensures Valid() && activeIdx == NextTarget(old(activeIdx), pageCount)
    {
      if activeIdx < pageCount - 2 {
        activeIdx := activeIdx + 2;
      }
    }

    /** A click on dot `i` of the `DotCount(pageCount)` dots. */
    method Dot(i: nat)
      requires Valid() && i < DotCount(pageCount)
      modifies this
      ensures Valid() && activeIdx == DotTarget(i)
    {
      DotsKeepSpread(i, pageCount);
      activeIdx := 2 * i;
    }
  }

  // ---- the exported viewer ----

  /** What the exported page draws for one node: its place and whether it is
      shown open. */
  datatype RenderedNode = RenderedNode(id: NodeId, tag: NodeType, x: real, y: real, isOpen: bool)

  /** The viewer script over the scrapbook frozen into the page. Open states
      live in its own `nodeStates` map, keyed by node id and starting empty:
      the stored `isOpen` flags are not read. */
  class ExportedViewer {
    const pages: seq<Page>
    var activeIdx: int
    var nodeStates: map<NodeId, bool>

    ghost predicate Valid()
      reads this
    {
      SpreadOk(activeIdx, |pages|)
    }

    constructor (pages: seq<Page>)
      ensures Valid() && this.pages == pages && activeIdx == 0 && nodeStates == map[]
      ensures forall id :: !IsOpen(id)
    {
      this.pages := pages;
      activeIdx := 0;
      nodeStates := map[];
    }

    /** `nodeStates[id] || false`. */
    function IsOpen(id: NodeId): bool
      reads this
    {
      id in nodeStates && nodeStates[id]
    }

    /** A click on a node flips its state in the viewer's map (all nodes
        sharing the id flip together). */
    method ClickNode(id: NodeId)
      requires Valid()
      modifies this`nodeStates
      ensures Valid()
      ensures IsOpen(id) == !old(IsOpen(id))
      ensures forall other :: other != id ==> IsOpen(other) == old(IsOpen(other))
    {
      nodeStates := nodeStates[id := !IsOpen(id)];
    }

    method Prev()
      requires Valid()
      modifies this`activeIdx
      ensures Valid() && activeIdx == PrevTarget(old(activeIdx))
    {
      if activeIdx > 0 {
        activeIdx := activeIdx - 2;
      }
    }

    method Next()
      requires Valid()
      modifies this`activeIdx
      ensures Valid() && activeIdx == NextTarget(old(activeIdx), |pages|)
    {
      if activeIdx < |pages| - 2 {
        activeIdx := activeIdx + 2;
      }
    }

    /** `updateView`: fills both pages with their nodes, sets the two
        buttons' disabled flags and draws the dots, the active one lit. */
    method UpdateView() returns (left: seq<RenderedNode>, right: seq<RenderedNode>,
                                 prevDisabled: bool, nextDisabled: bool, dots: seq<bool>)
      requires Valid()
      ensures |left| == |SideNodes(pages, activeIdx)|
      ensures forall k :: 0 <= k < |left| ==>
                var n := SideNodes(pages, activeIdx)[k];
                left[k] == RenderedNode(n.id, n.tag, n.x, n.y, IsOpen(n.id))
      ensures |right| == |SideNodes(pages, activeIdx + 1)|
      ensures forall k :: 0 <= k < |right| ==>
                var n := SideNodes(pages, activeIdx + 1)[k];
                right[k] == RenderedNode(n.id, n.tag, n.x, n.y, IsOpen(n.id))
      ensures prevDisabled == PrevDisabled(activeIdx)
      ensures nextDisabled == NextDisabled(activeIdx, |pages|)
      ensures |dots| == DotCount(|pages|)
      ensures forall i :: 0 <= i < |dots| ==> (dots[i] <==> i == ActiveDot(activeIdx))
    {
      left := RenderPage(SideNodes(pages, activeIdx));
      right := RenderPage(SideNodes(pages, activeIdx + 1));
      prevDisabled := activeIdx == 0;
      nextDisabled := activeIdx >= |pages| - 2;
      var count := (|pages| + 1) / 2;
      dots := [];
      var i := 0;
      while i < count
        invariant 0 <= i <= count
        invariant |dots| == i
        invariant forall j :: 0 <= j < i ==> (dots[j] <==> j == activeIdx / 2)
      {
        dots := dots + [activeIdx / 2 == i];
        i := i + 1;
      }
    }

    /** `nodes.forEach(n => side.appendChild(renderNode(n)))`. */
    method RenderPage(nodes: seq<Node>) returns (out: seq<RenderedNode>)
      ensures |out| == |nodes|
      ensures forall k :: 0 <= k < |nodes| ==>
                out[k] == RenderedNode(nodes[k].id, nodes[k].tag, nodes[k].x, nodes[k].y, IsOpen(nodes[k].id))
    {
      out := [];
      var k := 0;
      while k < |nodes|
        invariant 0 <= k <= |nodes|
        invariant |out| == k
        invariant forall j :: 0 <= j < k ==>
                    out[j] == RenderedNode(nodes[j].id, nodes[j].tag, nodes[j].x, nodes[j].y, IsOpen(nodes[j].id))
      {
        var n := nodes[k];
        out := out + [RenderedNode(n.id, n.tag, n.x, n.y, IsOpen(n.id))];
        k := k + 1;
      }
    }
  }
}
