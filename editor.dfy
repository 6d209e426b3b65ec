// The editor's state (App.tsx): the shelf of scrapbooks, which one is open,
// the current page, the pending page flip, the selected node and the pending
// connection source, with the handlers that change them.

module Editor {
  import opened Types
  import opened Document
  import opened Templates

  /** The screen the application shows. */
  datatype View = HomeView | ProjectsView | TemplatesView | EditorView | PreviewView

  /** The direction of a page flip in progress. */
  datatype Direction = Next | Prev

  class App {
    /** The `templates` state: initialised from the registry and never set
        again, so it is fixed for the editor's lifetime. */
    const templates: seq<Template>
    var activeView: View
    var scrapbooks: seq<Scrapbook>
    var selectedScrapbookId: Option<int>
    var currentPageIndex: int
    var isFlipping: Option<Direction>
    var selectedNodeId: Option<NodeId>
    var isConnecting: Option<NodeId>
    /** The targets of the page-flip timers `goToPage` started that have not
        fired yet, oldest first. */
    var pendingFlips: seq<int>

    /** Every scrapbook is built with four pages, so the current index and
        every index a flip will commit name a page of any scrapbook; a flip
        is shown only while its timer is pending. */
    ghost predicate Valid()
      reads this
    {
      && AllBooksSized(scrapbooks)
      && 0 <= currentPageIndex < PagesPerBook
      && (forall k :: 0 <= k < |pendingFlips| ==> 0 <= pendingFlips[k] < PagesPerBook)
      && (pendingFlips == [] ==> isFlipping.None?)
    }

    constructor ()
      ensures Valid()
      ensures activeView == HomeView && scrapbooks == [] && selectedScrapbookId.None?
      ensures currentPageIndex == 0 && isFlipping.None? && selectedNodeId.None?
      ensures isConnecting.None? && pendingFlips == []
      ensures templates == TEMPLATES
    {
      templates := TEMPLATES;
      activeView := HomeView;
      scrapbooks := [];
      selectedScrapbookId := None;
      currentPageIndex := 0;
      isFlipping := None;
      selectedNodeId := None;
      isConnecting := None;
      pendingFlips := [];
    }

    /** `currentScrapbook`: the index of the first scrapbook with the selected id. */
    function CurrentBook(): (r: Option<nat>)
      reads this
      ensures r.Some? ==> r.value < |scrapbooks|
    {
      FindBook(scrapbooks, selectedScrapbookId)
    }

    /** The editor screen renders (and its callbacks exist) only when the
        current scrapbook and its current page exist. */
    predicate EditorOpen()
      reads this
    {
      && activeView == EditorView
      && CurrentBook().Some?
      && 0 <= currentPageIndex < |scrapbooks[CurrentBook().value].pages|
    }

    function CurrentPages(): (pages: seq<Page>)
      reads this
      requires CurrentBook().Some?
    {
      scrapbooks[CurrentBook().value].pages
    }

    function CurrentPage(): (page: Page)
      reads this
      requires EditorOpen()
    {
      CurrentPages()[currentPageIndex]
    }

    // ---- navigation ----

    /** `openEditor`: select the scrapbook, go to its first page, clear the
        node selection. */
    method OpenEditor(id: int)
      requires Valid()
      modifies this
      ensures Valid()
      ensures activeView == EditorView && selectedScrapbookId == Some(id)
      ensures currentPageIndex == 0 && selectedNodeId.None?
      ensures scrapbooks == old(scrapbooks) && isFlipping == old(isFlipping)
      ensures isConnecting == old(isConnecting) && pendingFlips == old(pendingFlips)
    {
      selectedScrapbookId := Some(id);
      currentPageIndex := 0;
      activeView := EditorView;
      selectedNodeId := None;
    }

    /** The eye button of a shelf card: select the scrapbook and show the
        preview; the page index is kept. */
    method OpenPreview(id: int)
      requires Valid()
      modifies this
      ensures Valid()
      ensures activeView == PreviewView && selectedScrapbookId == Some(id)
      ensures scrapbooks == old(scrapbooks) && currentPageIndex == old(currentPageIndex)
      ensures isFlipping == old(isFlipping) && selectedNodeId == old(selectedNodeId)
      ensures isConnecting == old(isConnecting) && pendingFlips == old(pendingFlips)
    {
      selectedScrapbookId := Some(id);
      activeView := PreviewView;
    }

    /** A plain view switch (home, shelf, templates, back to the editor). */
    method ShowView(v: View)
      requires Valid()
      modifies this`activeView
      ensures Valid() && activeView == v
    {
      activeView := v;
    }

    /** `goToPage(index)`, the request half: out-of-range indices, the current
        index and a missing scrapbook are ignored; otherwise the flip direction
        is shown and a timer for `index` is started. */
    method GoToPage(index: int)
      requires Valid()
      modifies this`isFlipping, this`pendingFlips
      ensures Valid()
      ensures var accepted := old(CurrentBook()).Some?
                && 0 <= index < |old(CurrentPages())| && index != currentPageIndex;
        && (accepted ==>
              && isFlipping == Some(if index > currentPageIndex then Next else Prev)
              && pendingFlips == old(pendingFlips) + [index])
        && (!accepted ==>
              isFlipping == old(isFlipping) && pendingFlips == old(pendingFlips))
    {
      var book := CurrentBook();
      if book.None? || index < 0 || index >= |scrapbooks[book.value].pages| || index == currentPageIndex {
        return;
      }
      assert scrapbooks[book.value] in scrapbooks;
      isFlipping := Some(if index > currentPageIndex then Next else Prev);
      pendingFlips := pendingFlips + [index];
    }

    /** The oldest pending flip timer fires: the page index is committed and
        the node selection and the flip indicator are cleared. */
    method FlipTimerFires()
      requires Valid() && pendingFlips != []
      modifies this`currentPageIndex, this`selectedNodeId, this`isFlipping, this`pendingFlips
      ensures Valid()
      ensures currentPageIndex == old(pendingFlips[0]) && pendingFlips == old(pendingFlips[1..])
      ensures selectedNodeId.None? && isFlipping.None?
    {
      currentPageIndex := pendingFlips[0];
      pendingFlips := pendingFlips[1..];
      selectedNodeId := None;
      isFlipping := None;
    }

    // ---- the shelf ----

    /** `createNewScrapbook` with clock values `id` and `now`: the new book goes
        first and is opened at its first page; the node selection is kept. */
    method CreateNewScrapbook(id: int, now: int)
      requires Valid()
      modifies this`scrapbooks, this`selectedScrapbookId, this`currentPageIndex, this`activeView
      ensures Valid()
      ensures scrapbooks == [NewScrapbook(id, now)] + old(scrapbooks)
      ensures selectedScrapbookId == Some(id) && currentPageIndex == 0 && activeView == EditorView
      ensures CurrentBook() == Some(0)
    {
      scrapbooks := [NewScrapbook(id, now)] + scrapbooks;
      selectedScrapbookId := Some(id);
      currentPageIndex := 0;
      activeView := EditorView;
    }

    /** The delete button of a shelf card removes every scrapbook with that id;
        the selection is not touched. */
    method DeleteScrapbook(id: int)
      requires Valid()
      modifies this`scrapbooks
      ensures Valid()
      ensures scrapbooks == RemoveBooks(old(scrapbooks), id)
    {
      scrapbooks := RemoveBooks(scrapbooks, id);
    }

    // ---- document edits ----

    /** `handleAddNode` with the clock values `nodeId` (the node's id),
        `modifiedAt` (the scrapbook's stamp) and `selectedAt` (the new
        selection) and the random image seed: nothing happens without a
        selected scrapbook (id 0 counts as none) or without a template for the
        type; otherwise the node is appended to the current page of every
        scrapbook with the selected id and the selection is set to
        `selectedAt`, which need not be the node's id. */
    method HandleAddNode(typeName: string, x: real, y: real, customProps: Option<Props>,
                         nodeId: NodeId, seed: string, modifiedAt: int, selectedAt: int)
      requires Valid()
      modifies this`scrapbooks, this`selectedNodeId
      ensures Valid()
      ensures var tag := ParseType(typeName);
        var tpl := if tag.Some? then FindTemplate(templates, tag.value) else None;
        if selectedScrapbookId.None? || selectedScrapbookId == Some(0) || tpl.None? then
          scrapbooks == old(scrapbooks) && selectedNodeId == old(selectedNodeId)
        else
          && scrapbooks == AddNodeToBooks(old(scrapbooks), selectedScrapbookId.value, currentPageIndex,
                             NewNode(tpl.value, x, y, customProps, nodeId, RandomImage(seed)), modifiedAt)
          && selectedNodeId == Some(selectedAt)
    {
      if selectedScrapbookId.None? || selectedScrapbookId == Some(0) {
        return;
      }
      var tag := ParseType(typeName);
      if tag.None? {
        return;
      }
      var tpl := FindTemplate(templates, tag.value);
      if tpl.None? {
        return;
      }
      var node := NewNode(tpl.value, x, y, customProps, nodeId, RandomImage(seed));
      AddNodeKeepsSized(scrapbooks, selectedScrapbookId.value, currentPageIndex, node, modifiedAt);
      scrapbooks := AddNodeToBooks(scrapbooks, selectedScrapbookId.value, currentPageIndex, node, modifiedAt);
      selectedNodeId := Some(selectedAt);
    }

    /** Writes `page` at the current index of a copy of the current scrapbook's
        pages and gives that list to every scrapbook with the selected id. */
    method SetCurrentPage(page: Page)
      requires Valid() && EditorOpen()
      modifies this`scrapbooks
      ensures Valid() && EditorOpen()
      ensures scrapbooks == SetPages(old(scrapbooks), selectedScrapbookId,
                                     old(CurrentPages())[currentPageIndex := page])
      ensures CurrentBook() == old(CurrentBook())
      ensures CurrentPages() == old(CurrentPages())[currentPageIndex := page]
      ensures CurrentPage() == page
    {
      var k := CurrentBook().value;
      var pages := scrapbooks[k].pages[currentPageIndex := page];
      var old_books := scrapbooks;
      scrapbooks := SetPages(scrapbooks, selectedScrapbookId, pages);
      FindBookSameIds(old_books, scrapbooks, selectedScrapbookId);
      assert old_books[k] in old_books;
      forall b | b in scrapbooks
        ensures |b.pages| == PagesPerBook
      {
        var i :| 0 <= i < |scrapbooks| && scrapbooks[i] == b;
        assert old_books[i] in old_books;
      }
    }

    /** The canvas's `onUpdateNode(id, data)`: the patch is applied to every
        node with the id on the current page. */
    method UpdateNode(id: NodeId, patch: NodePatch)
      requires Valid() && EditorOpen()
      modifies this`scrapbooks
      ensures Valid() && EditorOpen() && CurrentBook() == old(CurrentBook())
      ensures CurrentPages() == old(CurrentPages())[currentPageIndex :=
                old(CurrentPage()).(nodes := MapWhere(old(CurrentPage()).nodes, id, Patch(patch)))]
      ensures scrapbooks == SetPages(old(scrapbooks), selectedScrapbookId, CurrentPages())
    {
      SetCurrentPage(CurrentPage().(nodes := MapWhere(CurrentPage().nodes, id, Patch(patch))));
    }

    /** The canvas's `onToggleOpen(id)`: flips `isOpen` of every node with the
        id on the current page. */
    method ToggleOpen(id: NodeId)
      requires Valid() && EditorOpen()
      modifies this`scrapbooks
      ensures Valid() && EditorOpen() && CurrentBook() == old(CurrentBook())
      ensures CurrentPages() == old(CurrentPages())[currentPageIndex :=
                old(CurrentPage()).(nodes := MapWhere(old(CurrentPage()).nodes, id, Toggle))]
      ensures scrapbooks == SetPages(old(scrapbooks), selectedScrapbookId, CurrentPages())
    {
      SetCurrentPage(CurrentPage().(nodes := MapWhere(CurrentPage().nodes, id, Toggle)));
    }

    /** The canvas's `onDeleteNode(id)`: the nodes with the id leave the current
        page; its connections stay as they are. */
    method DeleteNode(id: NodeId)
      requires Valid() && EditorOpen()
      modifies this`scrapbooks
      ensures Valid() && EditorOpen() && CurrentBook() == old(CurrentBook())
      ensures CurrentPages() == old(CurrentPages())[currentPageIndex := DeleteFromPage(old(CurrentPage()), id)]
      ensures CurrentPage().connections == old(CurrentPage().connections)
      ensures scrapbooks == SetPages(old(scrapbooks), selectedScrapbookId, CurrentPages())
    {
      SetCurrentPage(DeleteFromPage(CurrentPage(), id));
    }

    /** The canvas's `onConnect(target)`: with a pending source other than the
        target, the edge source -> target is appended to the current page and
        the pending source cleared; otherwise (nothing pending, or the source
        itself clicked) nothing changes and the source stays pending. */
    method Connect(targetId: NodeId)
      requires Valid() && EditorOpen()
      modifies this`scrapbooks, this`isConnecting
      ensures Valid() && EditorOpen() && CurrentBook() == old(CurrentBook())
      ensures old(isConnecting).Some? && old(isConnecting).value != targetId ==>
        && CurrentPages() == old(CurrentPages())[currentPageIndex :=
             AppendConnection(old(CurrentPage()), old(isConnecting).value, targetId)]
        && scrapbooks == SetPages(old(scrapbooks), selectedScrapbookId, CurrentPages())
        && isConnecting.None?
      ensures old(isConnecting).None? || old(isConnecting).value == targetId ==>
        scrapbooks == old(scrapbooks) && isConnecting == old(isConnecting)
    {
      if isConnecting.Some? && isConnecting.value != targetId {
        SetCurrentPage(AppendConnection(CurrentPage(), isConnecting.value, targetId));
        isConnecting := None;
      }
    }

    /** The canvas's `onStartConnecting(id)`. */
    method StartConnecting(id: NodeId)
      requires Valid()
      modifies this`isConnecting
      ensures Valid() && isConnecting == Some(id)
    {
      isConnecting := Some(id);
    }

    /** The canvas's `onSelectNode`: a node id, or none from the bare canvas. */
    method SelectNode(id: Option<NodeId>)
      requires Valid()
      modifies this`selectedNodeId
      ensures Valid() && selectedNodeId == id
    {
      selectedNodeId := id;
    }

    // ---- the property panel's callbacks: all act on the selected node ----

    /** `onUpdateProps(p)`: `p` is merged into the selected node's props;
        nothing happens without a selection. */
    method PanelUpdateProps(p: Props)
      requires Valid() && EditorOpen()
      modifies this`scrapbooks
      ensures Valid() && EditorOpen() && CurrentBook() == old(CurrentBook())
      ensures selectedNodeId.None? ==> scrapbooks == old(scrapbooks)
      ensures selectedNodeId.Some? ==>
        && CurrentPages() == old(CurrentPages())[currentPageIndex :=
             old(CurrentPage()).(nodes := MapWhere(old(CurrentPage()).nodes, selectedNodeId.value, Merge(p)))]
        && scrapbooks == SetPages(old(scrapbooks), selectedScrapbookId, CurrentPages())
    {
      if selectedNodeId.None? {
        return;
      }
      SetCurrentPage(CurrentPage().(nodes := MapWhere(CurrentPage().nodes, selectedNodeId.value, Merge(p))));
    }

    /** `onUpdateNode(data)`: the patch is applied to the selected node;
        nothing happens without a selection. */
    method PanelUpdateNode(patch: NodePatch)
      requires Valid() && EditorOpen()
      modifies this`scrapbooks
      ensures Valid() && EditorOpen() && CurrentBook() == old(CurrentBook())
      ensures selectedNodeId.None? ==> scrapbooks == old(scrapbooks)
      ensures selectedNodeId.Some? ==>
        && CurrentPages() == old(CurrentPages())[currentPageIndex :=
             old(CurrentPage()).(nodes := MapWhere(old(CurrentPage()).nodes, selectedNodeId.value, Patch(patch)))]
        && scrapbooks == SetPages(old(scrapbooks), selectedScrapbookId, CurrentPages())
    {
      if selectedNodeId.None? {
        return;
      }
      SetCurrentPage(CurrentPage().(nodes := MapWhere(CurrentPage().nodes, selectedNodeId.value, Patch(patch))));
    }

    /** `onDelete()`: the selected node leaves the current page (its
        connections stay) and the selection is cleared; nothing happens
        without a selection. */
    method PanelDelete()
      requires Valid() && EditorOpen()
      modifies this`scrapbooks, this`selectedNodeId
      ensures Valid() && EditorOpen() && CurrentBook() == old(CurrentBook())
      ensures old(selectedNodeId).None? ==> scrapbooks == old(scrapbooks) && selectedNodeId.None?
      ensures old(selectedNodeId).Some? ==>
        && CurrentPages() == old(CurrentPages())[currentPageIndex :=
             DeleteFromPage(old(CurrentPage()), old(selectedNodeId).value)]
        && scrapbooks == SetPages(old(scrapbooks), selectedScrapbookId, CurrentPages())
        && selectedNodeId.None?
    {
      if selectedNodeId.None? {
        return;
      }
      SetCurrentPage(DeleteFromPage(CurrentPage(), selectedNodeId.value));
      selectedNodeId := None;
    }

    /** `onStartConnecting()`: the selected node (or none) becomes the pending
        source. */
    method PanelStartConnecting()
      requires Valid()
      modifies this`isConnecting
      ensures Valid() && isConnecting == selectedNodeId
    {
      isConnecting := selectedNodeId;
    }

    // ---- the preview ----

    /** The preview's `onToggleOpen(pageIdx, nodeId)`: flips `isOpen` of the
        nodes with the id on page `pageIdx` of the shown scrapbook. The
        preview only offers nodes of pages that exist. */
    method PreviewToggleOpen(pageIdx: int, nodeId: NodeId)
      requires Valid() && activeView == PreviewView && CurrentBook().Some?
      requires 0 <= pageIdx < |CurrentPages()|
      modifies this`scrapbooks
      ensures Valid() && CurrentBook() == old(CurrentBook())
      ensures CurrentPages() == old(CurrentPages())[pageIdx :=
                old(CurrentPages())[pageIdx].(nodes := MapWhere(old(CurrentPages())[pageIdx].nodes, nodeId, Toggle))]
      ensures scrapbooks == SetPages(old(scrapbooks), selectedScrapbookId, CurrentPages())
    {
      var k := CurrentBook().value;
      var page := scrapbooks[k].pages[pageIdx];
      var pages := scrapbooks[k].pages[pageIdx := page.(nodes := MapWhere(page.nodes, nodeId, Toggle))];
      var old_books := scrapbooks;
      scrapbooks := SetPages(scrapbooks, Some(old_books[k].id), pages);
      FindBookSameIds(old_books, scrapbooks, selectedScrapbookId);
      assert old_books[k] in old_books;
      forall b | b in scrapbooks
        ensures |b.pages| == PagesPerBook
      {
        var i :| 0 <= i < |scrapbooks| && scrapbooks[i] == b;
        assert old_books[i] in old_books;
      }
    }
  }
}
