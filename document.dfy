// The document edits of the editor (App.tsx): each rebuilds one page of the
// selected scrapbook with map / filter / spread copies and leaves everything
// else as it was.

module Document {
  import opened Types
  import Templates
  import Text

  /** Every scrapbook is created with this many pages and no edit changes it. */
  const PagesPerBook := 4

  // ---- nodes ----

  /** `Partial<NodeData>` as the editor's callers build it: a move sets x and y,
      an upload sets `imgBg`. */
  datatype NodePatch = NodePatch(
    x: Option<real>,
    y: Option<real>,
    imgBg: Option<string>,
    imgTop: Option<string>,
    isOpen: Option<bool>)

  function MovePatch(x: real, y: real): NodePatch
  {
    NodePatch(Some(x), Some(y), None, None, None)
  }

  /** `{ ...n, ...data }`: the fields the patch holds replace the node's. */
  function ApplyPatch(n: Node, p: NodePatch): (r: Node)
    ensures r.id == n.id && r.tag == n.tag && r.props == n.props
    ensures r.x == (if p.x.Some? then p.x.value else n.x)
    ensures r.y == (if p.y.Some? then p.y.value else n.y)
    ensures r.imgBg == (if p.imgBg.Some? then p.imgBg.value else n.imgBg)
    ensures r.imgTop == (if p.imgTop.Some? then p.imgTop else n.imgTop)
    ensures r.isOpen == (if p.isOpen.Some? then p.isOpen.value else n.isOpen)
  {
    n.(x := if p.x.Some? then p.x.value else n.x,
       y := if p.y.Some? then p.y.value else n.y,
       imgBg := if p.imgBg.Some? then p.imgBg.value else n.imgBg,
       imgTop := if p.imgTop.Some? then p.imgTop else n.imgTop,
       isOpen := if p.isOpen.Some? then p.isOpen.value else n.isOpen)
  }

  /** `{ ...n, isOpen: !n.isOpen }`. */
  function ToggleNode(n: Node): (r: Node)
    ensures r.isOpen != n.isOpen && r.id == n.id
  {
    n.(isOpen := !n.isOpen)
  }

  /** `{ ...n, props: { ...n.props, ...p } }`: keys of `p` win. */
  function MergeProps(n: Node, p: Props): (r: Node)
    ensures r.id == n.id
    ensures r.props.Keys == n.props.Keys + p.Keys
    ensures forall k :: k in p ==> r.props[k] == p[k]
    ensures forall k :: k in n.props && k !in p ==> r.props[k] == n.props[k]
  {
    n.(props := n.props + p)
  }

  /** The three per-node rewrites the editor applies by id. */
  datatype NodeEdit = Patch(patch: NodePatch) | Toggle | Merge(props: Props)

  function EditNode(n: Node, e: NodeEdit): (r: Node)
    ensures r.id == n.id
  {
    match e
    case Patch(p) => ApplyPatch(n, p)
    case Toggle => ToggleNode(n)
    case Merge(p) => MergeProps(n, p)
  }

  /** `nodes.map(n => n.id === id ? edit(n) : n)`: every node carrying the id
      is rewritten, every other node is kept, order and length are kept. */
  function MapWhere(nodes: seq<Node>, id: NodeId, e: NodeEdit): (r: seq<Node>)
    ensures |r| == |nodes|
    ensures forall i :: 0 <= i < |nodes| && nodes[i].id == id ==> r[i] == EditNode(nodes[i], e)
    ensures forall i :: 0 <= i < |nodes| && nodes[i].id != id ==> r[i] == nodes[i]
  {
    if nodes == [] then []
    else [if nodes[0].id == id then EditNode(nodes[0], e) else nodes[0]] + MapWhere(nodes[1..], id, e)
  }

  /** `nodes.filter(n => n.id !== id)`. */
  function RemoveNodes(nodes: seq<Node>, id: NodeId): (r: seq<Node>)
    ensures |r| <= |nodes|
    ensures forall i :: 0 <= i < |r| ==> r[i].id != id
    ensures forall n :: n in r <==> n in nodes && n.id != id
  {
    if nodes == [] then []
    else (if nodes[0].id == id then [] else [nodes[0]]) + RemoveNodes(nodes[1..], id)
  }

  /** Toggling the same id twice gives the node list back. */
  lemma ToggleTwice(nodes: seq<Node>, id: NodeId)
    ensures MapWhere(MapWhere(nodes, id, Toggle), id, Toggle) == nodes
  {
    var once := MapWhere(nodes, id, Toggle);
    var twice := MapWhere(once, id, Toggle);
    forall i | 0 <= i < |nodes|
      ensures twice[i] == nodes[i]
    {
      if nodes[i].id == id {
        assert once[i] == ToggleNode(nodes[i]);
      }
    }
  }

  /** Removal keeps the relative order of the remaining nodes: removing from a
      concatenation is removing from each part. */
  lemma {:induction false} RemoveNodesAppend(a: seq<Node>, b: seq<Node>, id: NodeId)
    ensures RemoveNodes(a + b, id) == RemoveNodes(a, id) + RemoveNodes(b, id)
  {
    if a != [] {
      assert (a + b)[0] == a[0];
      assert (a + b)[1..] == a[1..] + b;
      RemoveNodesAppend(a[1..], b, id);
    } else {
      assert a + b == b;
    }
  }

  /** Removing an id no node carries changes nothing. */
  lemma {:induction false} RemoveAbsent(nodes: seq<Node>, id: NodeId)
    requires forall i :: 0 <= i < |nodes| ==> nodes[i].id != id
    ensures RemoveNodes(nodes, id) == nodes
  {
    if nodes != [] {
      RemoveAbsent(nodes[1..], id);
    }
  }

  // ---- template defaults and new nodes ----

  /** `tpl.props.forEach(p => props[p.key] = p.def)`: a later definition of a
      key overrides an earlier one. */
  function Defaults(defs: seq<PropDefinition>): (m: Props)
    ensures forall k :: k in m <==> exists i :: 0 <= i < |defs| && defs[i].key == k
  {
    if defs == [] then map[]
    else
      var last := defs[|defs| - 1];
      var m := Defaults(defs[..|defs| - 1]);
      assert forall i :: 0 <= i < |defs| - 1 ==> defs[..|defs| - 1][i] == defs[i];
      m[last.key := last.def]
  }

  /** With distinct keys, each key holds its own definition's default. */
  lemma {:induction false} DefaultsValues(defs: seq<PropDefinition>)
    requires Templates.KeysDistinct(defs)
    ensures forall i :: 0 <= i < |defs| ==> Defaults(defs)[defs[i].key] == defs[i].def
  {
    if defs != [] {
      var init := defs[..|defs| - 1];
      assert Templates.KeysDistinct(init);
      DefaultsValues(init);
      forall i | 0 <= i < |defs|
        ensures Defaults(defs)[defs[i].key] == defs[i].def
      {
        if i < |defs| - 1 {
          assert init[i] == defs[i];
          assert defs[i].key != defs[|defs| - 1].key;
        }
      }
    }
  }

  /** The props of a node created from `tpl`: the defaults, then `customProps`
      assigned over them. */
  function InitialProps(tpl: Template, customProps: Option<Props>): (r: Props)
    ensures forall k :: k in r <==>
              (customProps.Some? && k in customProps.value)
              || exists i :: 0 <= i < |tpl.props| && tpl.props[i].key == k
    ensures customProps.Some? ==> forall k :: k in customProps.value ==> r[k] == customProps.value[k]
    ensures customProps.None? ==> r == Defaults(tpl.props)
  {
    var defaults := Defaults(tpl.props);
    if customProps.Some? then defaults + customProps.value else defaults
  }

  /** The node `handleAddNode` builds; `id` and `imgBg` come from the clock and
      the random seed. */
  function NewNode(tpl: Template, x: real, y: real, customProps: Option<Props>,
                   id: NodeId, imgBg: string): (r: Node)
    ensures r.id == id && r.tag == tpl.tag && !r.isOpen
    ensures r.x == x && r.y == y && r.imgBg == imgBg
    ensures r.props == InitialProps(tpl, customProps)
  {
    Node(id, tpl.tag, x, y, InitialProps(tpl, customProps), imgBg, None, false)
  }

  /** The image URL built from `Math.random()` (given here as its text). */
  function RandomImage(seed: string): (r: string)
    ensures |r| == |seed| + 35
    ensures r[..27] == "https://picsum.photos/seed/" && r[27..27 + |seed|] == seed
  {
    "https://picsum.photos/seed/" + seed + "/400/300"
  }

  /** A node created from a registry template holds exactly the template's keys
      and the custom keys; custom values win, the rest are the defaults; it is
      created closed. */
  lemma NewNodeProps(tpl: Template, x: real, y: real, customProps: Option<Props>,
                     id: NodeId, imgBg: string)
    requires tpl in Templates.TEMPLATES
    ensures var n := NewNode(tpl, x, y, customProps, id, imgBg);
      && !n.isOpen && n.tag == tpl.tag && n.x == x && n.y == y
      && (forall k :: k in n.props <==>
            (customProps.Some? && k in customProps.value)
            || exists i :: 0 <= i < |tpl.props| && tpl.props[i].key == k)
      && (customProps.Some? ==> forall k :: k in customProps.value ==> n.props[k] == customProps.value[k])
      && (forall i :: 0 <= i < |tpl.props|
            && !(customProps.Some? && tpl.props[i].key in customProps.value)
            ==> n.props[tpl.props[i].key] == tpl.props[i].def)
  {
    Templates.TemplatesWellFormed();
    var j :| 0 <= j < |Templates.TEMPLATES| && Templates.TEMPLATES[j] == tpl;
    DefaultsValues(tpl.props);
  }

  // ---- pages ----

  /** The page with one more node, appended last (on top). */
  function AppendNode(page: Page, node: Node): (r: Page)
    ensures r.id == page.id && r.connections == page.connections
    ensures r.nodes == page.nodes + [node]
  {
    page.(nodes := page.nodes + [node])
  }

  /** The page with one more edge, appended last. */
  function AppendConnection(page: Page, from: NodeId, to: NodeId): (r: Page)
    ensures r.id == page.id && r.nodes == page.nodes
    ensures r.connections == page.connections + [Connection(from, to)]
  {
    page.(connections := page.connections + [Connection(from, to)])
  }

  /** Deleting a node removes it from the node list only: the page's
      connections are kept, including the ones that name the deleted id. */
  function DeleteFromPage(page: Page, id: NodeId): (r: Page)
    ensures r.id == page.id && r.connections == page.connections
    ensures r.nodes == RemoveNodes(page.nodes, id)
  {
    page.(nodes := RemoveNodes(page.nodes, id))
  }

  // ---- scrapbooks ----

  /** `books.find(s => s.id === id)`: the index of the first scrapbook with the
      id. */
  function FindBook(books: seq<Scrapbook>, id: Option<int>): (r: Option<nat>)
    ensures r.Some? ==> r.value < |books| && Some(books[r.value].id) == id
    ensures r.Some? ==> forall j :: 0 <= j < r.value ==> Some(books[j].id) != id
    ensures r.None? ==> forall j :: 0 <= j < |books| ==> Some(books[j].id) != id
  {
    if books == [] then None
    else if Some(books[0].id) == id then Some(0)
    else match FindBook(books[1..], id)
      case None => None
      case Some(k) => Some(k + 1)
  }

  /** `books.map(s => s.id === id ? { ...s, pages } : s)`: every scrapbook
      carrying the id receives the same page list. */
  function SetPages(books: seq<Scrapbook>, id: Option<int>, pages: seq<Page>): (r: seq<Scrapbook>)
    ensures |r| == |books|
    ensures forall i :: 0 <= i < |books| && Some(books[i].id) == id ==> r[i] == books[i].(pages := pages)
    ensures forall i :: 0 <= i < |books| && Some(books[i].id) != id ==> r[i] == books[i]
  {
    if books == [] then []
    else [if Some(books[0].id) == id then books[0].(pages := pages) else books[0]]
         + SetPages(books[1..], id, pages)
  }

  /** Two shelves with the same ids in the same order find the same index. */
  lemma {:induction false} FindBookSameIds(a: seq<Scrapbook>, b: seq<Scrapbook>, id: Option<int>)
    requires |a| == |b|
    requires forall i :: 0 <= i < |a| ==> a[i].id == b[i].id
    ensures FindBook(a, id) == FindBook(b, id)
  {
    if a != [] && Some(a[0].id) != id {
      FindBookSameIds(a[1..], b[1..], id);
    }
  }

  /** `handleAddNode` on one scrapbook: the new node goes last on page
      `pageIndex`, every other page is kept and `lastModified` is stamped.
      (The source would throw on a page index the book does not have; the
      model leaves such a book unchanged.) */
  function AddNodeToBook(book: Scrapbook, pageIndex: nat, node: Node, now: int): (r: Scrapbook)
    ensures |r.pages| == |book.pages|
    ensures r.id == book.id && r.title == book.title && r.style == book.style
    ensures r.cover == book.cover && r.categoryId == book.categoryId
    ensures pageIndex < |book.pages| ==>
      && r.pages[pageIndex] == AppendNode(book.pages[pageIndex], node)
      && r.lastModified == now
      && forall j :: 0 <= j < |book.pages| && j != pageIndex ==> r.pages[j] == book.pages[j]
    ensures pageIndex >= |book.pages| ==> r == book
  {
    if pageIndex < |book.pages| then
      book.(pages := book.pages[pageIndex := AppendNode(book.pages[pageIndex], node)],
            lastModified := now)
    else book
  }

  /** The `setScrapbooks` update of `handleAddNode`: every scrapbook with the
      selected id gets the node; the others are unchanged. */
  function AddNodeToBooks(books: seq<Scrapbook>, selected: int, pageIndex: nat, node: Node, now: int)
    : (r: seq<Scrapbook>)
    ensures |r| == |books|
    ensures forall i :: 0 <= i < |books| && books[i].id == selected ==>
              r[i] == AddNodeToBook(books[i], pageIndex, node, now)
    ensures forall i :: 0 <= i < |books| && books[i].id != selected ==> r[i] == books[i]
  {
    if books == [] then []
    else [if books[0].id == selected then AddNodeToBook(books[0], pageIndex, node, now) else books[0]]
         + AddNodeToBooks(books[1..], selected, pageIndex, node, now)
  }

  /** An add keeps every scrapbook at the fixed page count. */
  lemma AddNodeKeepsSized(books: seq<Scrapbook>, selected: int, pageIndex: nat, node: Node, now: int)
    requires AllBooksSized(books)
    ensures AllBooksSized(AddNodeToBooks(books, selected, pageIndex, node, now))
  {
    var after := AddNodeToBooks(books, selected, pageIndex, node, now);
    forall b | b in after
      ensures |b.pages| == PagesPerBook
    {
      var i :| 0 <= i < |after| && after[i] == b;
      assert books[i] in books;
    }
  }

  /** After an add, the selected scrapbook is found at the same place, with
      the node last on page `pageIndex` and its other pages as they were. */
  lemma AddNodeLandsOnPage(books: seq<Scrapbook>, selected: int, pageIndex: nat, node: Node, now: int)
    requires pageIndex < PagesPerBook && AllBooksSized(books)
    requires FindBook(books, Some(selected)).Some?
    ensures var after := AddNodeToBooks(books, selected, pageIndex, node, now);
      var k := FindBook(books, Some(selected)).value;
      && FindBook(after, Some(selected)) == Some(k)
      && after[k].pages[pageIndex].nodes == books[k].pages[pageIndex].nodes + [node]
      && after[k].pages[pageIndex].connections == books[k].pages[pageIndex].connections
      && after[k].lastModified == now
      && (forall j :: 0 <= j < PagesPerBook && j != pageIndex ==> after[k].pages[j] == books[k].pages[j])
      && AllBooksSized(after)
  {
    var after := AddNodeToBooks(books, selected, pageIndex, node, now);
    FindBookSameIds(books, after, Some(selected));
    var k := FindBook(books, Some(selected)).value;
    assert books[k] in books;
    AddNodeKeepsSized(books, selected, pageIndex, node, now);
  }

  /** The scrapbook `createNewScrapbook` builds from the clock value `id`. */
  function NewScrapbook(id: int, now: int): (b: Scrapbook)
    ensures |b.pages| == PagesPerBook && b.style == Classic
    ensures forall i :: 0 <= i < |b.pages| ==>
              b.pages[i].id == id + i && b.pages[i].nodes == [] && b.pages[i].connections == []
  {
    Scrapbook(id, "我的新回忆录", "https://picsum.photos/seed/" + Text.IntToString(id) + "/600/400",
              "life", Classic,
              [Page(id, [], []), Page(id + 1, [], []), Page(id + 2, [], []), Page(id + 3, [], [])],
              now)
  }

  /** `books.filter(s => s.id !== id)`: deleting a scrapbook from the shelf. */
  function RemoveBooks(books: seq<Scrapbook>, id: int): (r: seq<Scrapbook>)
    ensures |r| <= |books|
    ensures forall b :: b in r <==> b in books && b.id != id
  {
    if books == [] then []
    else (if books[0].id == id then [] else [books[0]]) + RemoveBooks(books[1..], id)
  }

  /** Deleting keeps the shelf order: removing from a concatenation is
      removing from each part. */
  lemma {:induction false} RemoveBooksAppend(a: seq<Scrapbook>, b: seq<Scrapbook>, id: int)
    ensures RemoveBooks(a + b, id) == RemoveBooks(a, id) + RemoveBooks(b, id)
  {
    if a != [] {
      assert (a + b)[0] == a[0];
      assert (a + b)[1..] == a[1..] + b;
      RemoveBooksAppend(a[1..], b, id);
    } else {
      assert a + b == b;
    }
  }

  /** Every scrapbook has the fixed page count. */
  predicate AllBooksSized(books: seq<Scrapbook>)
  {
    forall b :: b in books ==> |b.pages| == PagesPerBook
  }
}
