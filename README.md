# Scrapbook editor — a verified Dafny model of its core

The modelled application is a browser scrapbook editor. A scrapbook holds four
pages. Each page holds interactive nodes (text boxes, stickers, film rolls,
envelopes, drawers, flip boxes, news clippings, accordions, wanted posters,
suits, windows, polaroids, records) and directed connections between them.
The user drops node types from a palette onto a page canvas, drags nodes,
opens and closes them, links them, edits their properties in a side panel,
flips between pages, previews the book as two-page spreads and exports a
standalone viewer page.

The model covers:

- the data types (`types.dfy`);
- the template registry with its property definitions (`templates.dfy`);
- the immutable document edits the editor performs (`document.dfy`);
- the editor's state and handlers as a class (`editor.dfy`);
- the canvas: drop coordinates, read-only gating, connection drawing (`canvas.dfy`);
- the per-node drag state machine and the prop-derived rendering rules (`interactive_node.dfy`);
- the property panel's edits, the film roll's comma-joined picture list above all (`property_panel.dfy`);
- the in-app spread preview and the exported viewer (`spread.dfy`);
- the JavaScript string primitives the code relies on: `split(',')`, `join(',')`, `trim`, `parseInt`, number-to-text (`text.dfy`).

The model follows the code as written. Several of its behaviours are worth
knowing:

- Deleting a node does not prune the page's connections. Edges that name
  the deleted id stay stored, and the canvas stops drawing them
  (`Canvas.DeleteHidesTouchingEdges`, `Canvas.DeleteKeepsDanglingEdge`).
- Clicking the pending connection source itself leaves the connection
  pending (`Editor.App.Connect`).
- A drag moves a node by the raw screen delta of the pointer. There is no
  division by the editor's zoom (`InteractiveNode.DragStep`).
- After an add, the selection is set to a second clock reading, which
  need not be the new node's id (`Editor.App.HandleAddNode`).
- The exported viewer ignores the stored `isOpen` flags. It keeps its own
  map of open states, and every node starts closed
  (`Spread.ExportedViewer`).
- The live film roll and the exported one differ when the picture list is
  non-empty but every entry is blank. The live roll is then empty, and the
  exported one falls back to the background picture
  (`InteractiveNode.FilmImagesAgreeUnlessAllBlank`).
- A data URL contains a comma, so one uploaded picture reads back as two
  list entries, whatever the list held before
  (`PropertyPanel.DataUrlUploadSplits`).

`goToPage` starts a 400 ms timer. The model splits it into two steps:
`Editor.App.GoToPage` records the request, and `Editor.App.FlipTimerFires`
commits the oldest pending target. Clock readings (`Date.now()`), the
random image seed and the AI service's answer are parameters.

## Model

| member | source | states |
|---|---|---|
| Types.ParseType | types.ts:2-16 | a type name parses only to the tag whose name it is |
| Types.ParseTypeName | types.ts:2-16 | every one of the 14 tags parses back from its name |
| Templates.FindTemplate | App.tsx:92 | `templates.find(t => t.type === type)` (also the panel's lookup): a template is found iff one has the tag; the one found is the first with the tag and comes from the list |
| Templates.TextKeysDistinct | constants.tsx:10-57 | the text template's twelve property keys are pairwise distinct |
| Templates.TextTemplateWellFormed | constants.tsx:6-58 | the text template's keys are distinct, its ranges have min <= def <= max, its selects offer their default |
| Templates.StickerTemplateWellFormed | constants.tsx:59-84 | the same for the sticker template |
| Templates.FilmrollTemplateWellFormed | constants.tsx:85-97 | the same for the film-roll template |
| Templates.EnvelopeTemplateWellFormed | constants.tsx:98-121 | the same for the envelope template |
| Templates.RecordTemplateWellFormed | constants.tsx:122-133 | the same for the record template |
| Templates.DrawerTemplateWellFormed | constants.tsx:134-144 | the same for the drawer template |
| Templates.FlipboxTemplateWellFormed | constants.tsx:145-155 | the same for the flip-box template |
| Templates.NewsTemplateWellFormed | constants.tsx:156-165 | the same for the news template |
| Templates.AccordionTemplateWellFormed | constants.tsx:166-175 | the same for the accordion template |
| Templates.WantedTemplateWellFormed | constants.tsx:176-185 | the same for the wanted template |
| Templates.SuitTemplateWellFormed | constants.tsx:186-196 | the same for the suit template |
| Templates.WindowTemplateWellFormed | constants.tsx:197-206 | the same for the window template |
| Templates.PolaroidTemplateWellFormed | constants.tsx:207-215 | the same for the polaroid template |
| Templates.TemplatesWellFormed | constants.tsx:5-216 | every registry entry is well formed |
| Templates.TemplateTags | constants.tsx:5-216 | the registry holds 13 templates, in the listed tag order |
| Templates.TemplateTagsDistinct | constants.tsx:5-216 | no tag has two templates, so `find` by tag is unambiguous |
| Templates.TemplatesCoverTags | constants.tsx:5-216 | a template is found for a tag iff the tag is not `custom` |
| Text.Split | components/PropertyPanel.tsx:58 | `split(',')` yields at least one part, none holding a comma |
| Text.Join | components/PropertyPanel.tsx:64 | `join(',')`; no contract of its own, specified by `Text.JoinSplit`, `Text.SplitJoin` and `Text.JoinHasComma` |
| Text.JoinHasComma | components/PropertyPanel.tsx:64 | over comma-free parts the joined text holds a comma iff there are two parts or more |
| Text.JoinLastSplits | components/PropertyPanel.tsx:57-64 | joining a last part that holds a comma equals joining its two halves as separate parts |
| Text.SplitPrefix | components/PropertyPanel.tsx:58 | a comma-free prefix joins the first part of the split of the rest |
| Text.SplitNoComma | components/PropertyPanel.tsx:58 | a comma-free text splits into itself alone |
| Text.SplitAtComma | components/PropertyPanel.tsx:58 | a comma-free head before a comma is the first part, followed by the split of the tail |
| Text.JoinSplit | components/PropertyPanel.tsx:58-64 | joining the split of any text gives the text back |
| Text.SplitJoin | components/PropertyPanel.tsx:58-64 | splitting the join of comma-free parts gives the parts back |
| Text.NonBlank | components/InteractiveNode.tsx:140 | `filter(i => i.trim())` keeps exactly the non-blank parts |
| Text.NonBlankAppend | components/InteractiveNode.tsx:140 | the blank filter works entry by entry over a concatenation, so kept entries stay in order with their repeats |
| Text.NonBlankOne | components/InteractiveNode.tsx:140 | a single entry is kept iff it is not blank |
| Text.NonEmpty | components/PropertyPanel.tsx:156 | `filter(Boolean)` keeps exactly the non-empty parts |
| Text.NonEmptyAppend | components/PropertyPanel.tsx:156 | the empty-string filter works entry by entry over a concatenation, keeping order and repeats |
| Text.NonEmptyOne | components/PropertyPanel.tsx:156 | a single entry is kept iff it is not the empty string |
| Text.NonEmptyCount | components/PropertyPanel.tsx:156 | the filter keeps one entry per position holding a non-empty string |
| Text.DigitChar | App.tsx:618 | a digit below ten is a digit character of that value |
| Text.NatToString | App.tsx:618 | a number's text is a non-empty run of digits |
| Text.IntToString | App.tsx:618 | `${id}`: a minus sign exactly for a negative number, then digits only (partner `Text.ParseIntToString`) |
| Text.DigitValue | components/PropertyPanel.tsx:110 | a digit character's value is below ten |
| Text.DigitRun | components/PropertyPanel.tsx:110 | the leading digit run is maximal |
| Text.TrimStart | components/PropertyPanel.tsx:110 | leading whitespace is dropped and nothing else |
| Text.DigitsValueOfNat | App.tsx:618 | the digits of a number read back as the number |
| Text.DigitRunAll | components/PropertyPanel.tsx:110 | an all-digit text is one digit run |
| Text.ParseDigitsOfNat | components/PropertyPanel.tsx:110 | reading the digits of a number gives the number |
| Text.ParseIntToString | components/PropertyPanel.tsx:110 | `parseInt` of an integer's text gives the integer, sign included |
| Text.ParseInt | components/PropertyPanel.tsx:110 | `parseInt` in base ten; no contract of its own, specified by `Text.ParseIntLeading`, `Text.ParseIntToString` and `PropertyPanel.RangeEditTruncates` |
| Text.ParseIntLeading | components/PropertyPanel.tsx:110 | blank text is NaN, text whose first non-blank character is a digit is a non-negative number, and one starting with anything but a digit or sign is NaN |
| Document.ApplyPatch | App.tsx:514 | `{...n, ...data}`: every field the patch holds replaces the node's, the others stay |
| Document.ToggleNode | App.tsx:531 | the open flag flips and the id stays |
| Document.MergeProps | App.tsx:555 | the merged props hold both key sets; the new values win, the others are kept |
| Document.EditNode | App.tsx:513-566 | a per-node edit keeps the node's id |
| Document.MapWhere | App.tsx:514 | nodes with the id are edited, all others kept, with order and length preserved |
| Document.RemoveNodes | App.tsx:537 | exactly the nodes without the id remain |
| Document.ToggleTwice | App.tsx:530-535 | toggling the same id twice restores the node list |
| Document.RemoveNodesAppend | App.tsx:537 | removal distributes over concatenation, so the order of the rest is kept |
| Document.RemoveAbsent | App.tsx:537 | removing an id no node carries changes nothing |
| Document.Defaults | App.tsx:97-98 | the default props have exactly the template's keys |
| Document.InitialProps | App.tsx:97-99 | the props hold exactly the template keys and the custom keys, and every custom value wins |
| Document.NewNode | App.tsx:101-109 | the new node carries the clock id, the template's type, the drop point, the built props and the random picture, and starts closed (partner `Document.NewNodeProps`) |
| Document.RandomImage | App.tsx:107 | the picture URL is the picsum seed prefix, the random text, then the size suffix |
| Document.DefaultsValues | App.tsx:97-98 | with distinct keys, each key holds its own definition's default |
| Document.NewNodeProps | App.tsx:97-109 | a new node holds the template keys plus the custom keys, custom values win, and it starts closed at the drop point |
| Document.AppendNode | App.tsx:111-115 | the node goes last on the page and the connections are kept |
| Document.AppendConnection | App.tsx:521-525 | the edge goes last and the nodes are kept |
| Document.DeleteFromPage | App.tsx:536-541 | the nodes with the id go and every connection stays |
| Document.FindBook | App.tsx:80 | the index found is the first scrapbook with the id; none is found iff none has it |
| Document.SetPages | App.tsx:517 | every scrapbook with the id gets the page list and the others are unchanged |
| Document.FindBookSameIds | App.tsx:80 | shelves with the same ids in order find the same index |
| Document.AddNodeToBook | App.tsx:95-118 | the node goes last on the current page, the other pages stay, `lastModified` is stamped, and id, title, cover, category and style are kept |
| Document.AddNodeToBooks | App.tsx:95-118 | only scrapbooks with the selected id change |
| Document.AddNodeKeepsSized | App.tsx:111-117 | an add keeps every scrapbook at four pages |
| Document.AddNodeLandsOnPage | App.tsx:95-118 | after an add, the selected scrapbook sits at the same index with the node last on that page, its edges and its other pages as before, and four pages still |
| Document.NewScrapbook | App.tsx:616-618 | a new scrapbook has four empty pages numbered from its id, in the classic style |
| Document.RemoveBooks | App.tsx:476 | exactly the scrapbooks without the id remain |
| Document.RemoveBooksAppend | App.tsx:476 | removal distributes over concatenation, so the shelf keeps its order |
| Canvas.DropPoint | components/Canvas.tsx:55-62 | the logical point maps back through the scale and the anchor to the pointer's screen position |
| Canvas.DropAtHalfScale | components/Canvas.tsx:55-62 | a drop at (120,120) on a half-size canvas lands at logical (200,200) |
| Canvas.HandleDrop | components/Canvas.tsx:38-65 | a node is requested iff editing and a type is given; it is placed at the drop point; custom props are passed only when the text is non-empty and parses |
| Canvas.ClearsSelection | components/Canvas.tsx:67-72 | the selection clears iff editing and the press is on the bare canvas |
| Canvas.Route | components/Canvas.tsx:129-134 | read-only forwards only toggle-open; editing forwards every event with the node's id and a move as an x/y patch |
| Canvas.FindNode | components/Canvas.tsx:98-99 | the node found carries the id; none is found iff no node does |
| Canvas.FindNodeFirst | components/Canvas.tsx:98-99 | the node found is the first one carrying the id, as `find` returns |
| Canvas.CurveBetween | components/Canvas.tsx:102-110 | the path runs anchor to anchor, with both control points at the middle x and each at its end's height |
| Canvas.DrawnCurves | components/Canvas.tsx:97-118 | at most one curve is drawn per connection |
| Canvas.DrawnCurvesAppend | components/Canvas.tsx:97-118 | the curves of a concatenation are those of each part, so curves follow stored connection order |
| Canvas.DrawnCurvesOne | components/Canvas.tsx:97-118 | one connection gives its curve iff both ends are on the page; a connection stored twice is drawn twice |
| Canvas.DrawnCurvesExactly | components/Canvas.tsx:97-118 | a curve is drawn iff it belongs to a stored connection with both ends on the page |
| Canvas.FindAfterRemove | components/Canvas.tsx:98-99 | after a delete, a surviving id finds the same node as before and the deleted id finds none |
| Canvas.DeleteHidesTouchingEdges | App.tsx:536-541 | a delete keeps every connection, stops drawing exactly those touching the id, and draws the others unchanged |
| Canvas.DeleteKeepsDanglingEdge | App.tsx:536-541 | deleting node 1 of the edge 1 -> 2 keeps the edge stored and draws nothing |
| Editor.App.constructor | App.tsx:45-58 | the editor starts on the home view with no scrapbooks, no selection, page 0, no flip and no pending connection, its template list being the registry |
| Editor.App.CurrentBook | App.tsx:80 | the current scrapbook, when there is one, is on the shelf |
| Editor.App.OpenEditor | App.tsx:83-88 | the editor view opens on page 0 of the chosen scrapbook with no node selected |
| Editor.App.OpenPreview | App.tsx:475 | the preview opens on the chosen scrapbook; the page and the selection are kept |
| Editor.App.ShowView | App.tsx:585 | a plain view switch changes only the view |
| Editor.App.GoToPage | App.tsx:122-127 | a valid new page index starts a flip in its direction and queues its timer; anything else changes nothing |
| Editor.App.FlipTimerFires | App.tsx:126 | the timer commits its page index and clears the selection and the flip |
| Editor.App.CreateNewScrapbook | App.tsx:616-623 | the new scrapbook goes first and becomes current on page 0 in the editor |
| Editor.App.DeleteScrapbook | App.tsx:476 | the scrapbooks with the id leave the shelf; the selection is not touched |
| Editor.App.HandleAddNode | App.tsx:90-120 | without a selected scrapbook (0 counts as none) or a template nothing changes; otherwise the new node is appended to the current page and the selection becomes the second clock reading |
| Editor.App.SetCurrentPage | App.tsx:515-517 | only the current page of the current scrapbook is replaced |
| Editor.App.UpdateNode | App.tsx:513-518 | the patch applies to the nodes with the id on the current page only |
| Editor.App.ToggleOpen | App.tsx:530-535 | the nodes with the id on the current page flip open/closed |
| Editor.App.DeleteNode | App.tsx:536-541 | the nodes with the id leave the current page and its connections are unchanged |
| Editor.App.Connect | App.tsx:519-529 | with a pending source other than the target, the edge is appended and the pending source cleared; otherwise nothing changes and the source stays pending |
| Editor.App.StartConnecting | App.tsx:542 | the node becomes the pending source |
| Editor.App.SelectNode | App.tsx:512 | the selection becomes the given node or none |
| Editor.App.PanelUpdateProps | App.tsx:553-559 | the props merge into the selected node; nothing happens without a selection |
| Editor.App.PanelUpdateNode | App.tsx:560-566 | the patch applies to the selected node; nothing happens without a selection |
| Editor.App.PanelDelete | App.tsx:567-574 | the selected node leaves the page (its edges stay) and the selection clears; nothing happens without a selection |
| Editor.App.PanelStartConnecting | App.tsx:575 | the selected node (or none) becomes the pending source |
| Editor.App.PreviewToggleOpen | App.tsx:593-597 | the nodes with the id on the given page flip open/closed and every other page is kept |
| InteractiveNode.DragStep | components/InteractiveNode.tsx:77-83 | a move shifts the node by exactly the pointer's movement, in screen units |
| InteractiveNode.Replay | components/InteractiveNode.tsx:76-95 | a whole drag as successive moves, each against the previous pointer; no contract of its own, specified by `InteractiveNode.ReplayTelescopes` |
| InteractiveNode.ReplayTelescopes | components/InteractiveNode.tsx:76-95 | a whole drag moves the node by the pointer's total displacement since the press |
| InteractiveNode.NodeDrag.constructor | components/InteractiveNode.tsx:31-33 | a node starts not dragging |
| InteractiveNode.NodeDrag.MouseDown | components/InteractiveNode.tsx:61-74 | read-only ignores the press; a pending connection asks to connect; otherwise the node is selected and the drag starts at the pointer |
| InteractiveNode.NodeDrag.MouseMove | components/InteractiveNode.tsx:77-83 | while dragging, a move is asked for and the pointer becomes the reference; otherwise nothing |
| InteractiveNode.NodeDrag.MouseUp | components/InteractiveNode.tsx:85 | the drag ends |
| InteractiveNode.NumOr | components/InteractiveNode.tsx:202 | `props[key] \|\| def` gives the default for a falsy value and the value otherwise |
| InteractiveNode.BackgroundStyle | components/InteractiveNode.tsx:97-106 | the four named patterns map to their textures; anything else draws "none" |
| InteractiveNode.PatternOptionsDrawn | constants.tsx:18 | every pattern the text template offers draws a texture, except "none" |
| InteractiveNode.LiveFilmImages | components/InteractiveNode.tsx:138-140 | an empty list shows the background picture; otherwise the blank filter of the split entries, in order, possibly none |
| InteractiveNode.ExportFilmImages | App.tsx:291-293 | with some non-blank entry the export shows the blank filter of the split entries, in order; with none, just the background picture |
| InteractiveNode.FilmImagesAgreeUnlessAllBlank | App.tsx:291-293 | the live and exported rolls differ iff the list is non-empty and all blank, and then live is empty and the export shows the background |
| InteractiveNode.FilmImagesBlankEntries | components/InteractiveNode.tsx:138-140 | the list "," shows nothing live and the background when exported |
| InteractiveNode.NewsClosedScalesOpen | components/InteractiveNode.tsx:202 | a closed clipping is 0.6 by 0.4 of its open size |
| InteractiveNode.NewsSize | components/InteractiveNode.tsx:202 | the clipping's open and closed size; no contract of its own, specified by `InteractiveNode.NewsClosedScalesOpen` and `InteractiveNode.NewsDefaultSize` |
| InteractiveNode.NewsDefaultSize | components/InteractiveNode.tsx:202 | without size props a clipping is 256 by 320 open and 153.6 by 128 closed |
| InteractiveNode.AccordionSpan | components/InteractiveNode.tsx:226 | open, the four panels span the width; closed, each is 10 wide |
| InteractiveNode.AccordionPanelWidth | components/InteractiveNode.tsx:226 | one accordion panel's width; no contract of its own, specified by `InteractiveNode.AccordionSpan` |
| PropertyPanel.WithoutImages | components/PropertyPanel.tsx:96-97 | exactly the definitions other than `images` remain |
| PropertyPanel.WithoutImagesAppend | components/PropertyPanel.tsx:96-97 | dropping `images` distributes over concatenation, so the controls keep template order |
| PropertyPanel.EditableProps | components/PropertyPanel.tsx:26-39 | controls exist iff a node is selected and its type has a template; they are its properties except `images` |
| PropertyPanel.EditablePropsByTag | components/PropertyPanel.tsx:26-39 | every node but a custom one gets controls, never the picture list |
| PropertyPanel.ImageList | components/PropertyPanel.tsx:58 | empty text is the empty list; otherwise the split |
| PropertyPanel.JoinNonEmpty | components/PropertyPanel.tsx:64 | two or more entries join to non-empty text |
| PropertyPanel.ImageListJoin | components/PropertyPanel.tsx:58-64 | comma-free entries read back from their join, except a single empty entry |
| PropertyPanel.ImageCount | components/PropertyPanel.tsx:156 | the count is the number of comma-separated positions holding a non-empty string: zero for no list, at most the number of entries |
| PropertyPanel.CountIncludesBlankEntries | components/PropertyPanel.tsx:156-158 | the list "a, " counts 2 while the roll shows only "a" |
| PropertyPanel.AssignAt | components/PropertyPanel.tsx:60 | an index write replaces an entry, pads with empty holes past the end, and ignores a negative index |
| PropertyPanel.UploadToList | components/PropertyPanel.tsx:57-64 | the upload is written at the index, or pushed when none is given, and the list is joined |
| PropertyPanel.UploadAppends | components/PropertyPanel.tsx:57-64 | a comma-free upload reads back as one more entry, the last, and the count follows |
| PropertyPanel.DataUrlUploadSplits | components/PropertyPanel.tsx:55-64 | for any list and any data URL `head,tail` with comma-free halves, the upload reads back as the list followed by two entries, `head` and `tail` |
| PropertyPanel.UploadIntoList | components/PropertyPanel.tsx:57-64 | the step-by-step list upload stores the same text as the list rule and reads back with the entry appended |
| PropertyPanel.SpliceOne | components/PropertyPanel.tsx:79 | `splice(idx, 1)` removes exactly entry idx, removes entry `length + idx` for a negative idx (the first entry below `-length`), and ignores one past the end |
| PropertyPanel.RemoveFilmImage | components/PropertyPanel.tsx:77-81 | the split list without the entry, joined again; no contract of its own, specified by `PropertyPanel.RemoveFilmImageReadsBack` |
| PropertyPanel.RemoveFilmImageReadsBack | components/PropertyPanel.tsx:77-81 | removing entry idx reads back as the list without it, order kept |
| PropertyPanel.RemoveFromList | components/PropertyPanel.tsx:77-81 | the step-by-step removal stores the list without entry idx |
| PropertyPanel.HandleFileUpload | components/PropertyPanel.tsx:57-70 | a list upload merges the joined list; `audioUrl` merges into props; `imgBg` patches the node |
| PropertyPanel.UploadRouting | components/PropertyPanel.tsx:66-70 | a background upload changes only `imgBg`, an audio upload only the `audioUrl` prop |
| PropertyPanel.AiPatch | components/PropertyPanel.tsx:41-49 | with a prompt and an answer, exactly the title and the text (the description, else the title) are set |
| PropertyPanel.AiPatchKeepsOtherProps | components/PropertyPanel.tsx:44-46 | merging an answer keeps every other prop and leaves no empty text under a non-empty title |
| PropertyPanel.RangeEdit | components/PropertyPanel.tsx:110 | a slider change stores `parseInt` of its text under the key |
| PropertyPanel.RangeEditReadsSlider | components/PropertyPanel.tsx:110 | a slider showing integer n stores n |
| PropertyPanel.RangeEditTruncates | components/PropertyPanel.tsx:110 | "12.5" stores 12 |
| Spread.DotCount | App.tsx:677 | `Math.ceil(n / 2)` dots: twice the count is n or n + 1 |
| Spread.PrevTarget | App.tsx:647 | the previous button never moves forward, and stays put exactly when the index is not positive (partner `Spread.NavigationKeepsSpread`) |
| Spread.NextTarget | App.tsx:654 | the next button never moves back, and stays put exactly when no later spread starts before the last page |
| Spread.PrevDisabled | App.tsx:649 | the previous button's disabled flag; specified by `Spread.DisabledMeansNoMove` |
| Spread.NextDisabled | App.tsx:656 | the next button's disabled flag; specified by `Spread.DisabledMeansNoMove` |
| Spread.ActiveDot | App.tsx:678 | the lit dot is the one whose spread holds the index: `2 * dot <= index < 2 * dot + 2` |
| Spread.DotTarget | App.tsx:678 | a dot's click leads to a spread that lights that same dot |
| Spread.NavigationKeepsSpread | App.tsx:647-660 | the previous and next buttons keep the spread start even and on a page |
| Spread.DotsKeepSpread | App.tsx:676-680 | every dot opens a valid spread, and that spread lights the same dot |
| Spread.OneActiveDot | App.tsx:678 | in a non-empty book the lit dot exists and opens the shown spread |
| Spread.DisabledMeansNoMove | App.tsx:647-660 | a button is disabled iff clicking it would change nothing |
| Spread.SideNodes | App.tsx:668-672 | a side shows its page's nodes, or none past the end |
| Spread.SpreadSides | App.tsx:668-672 | the left page exists, and the right one unless the left is the last |
| Spread.BookPreview.constructor | App.tsx:629 | the preview starts at the first spread |
| Spread.BookPreview.Prev | App.tsx:647-653 | back two pages unless at the start, keeping a valid spread |
| Spread.BookPreview.Next | App.tsx:654-660 | on two pages while a later spread exists, keeping a valid spread |
| Spread.BookPreview.Dot | App.tsx:678 | a dot shows the spread starting at twice its index |
| Spread.ExportedViewer.constructor | App.tsx:213-215 | the viewer starts at the first spread with every node closed, whatever the stored flags say |
| Spread.ExportedViewer.ClickNode | App.tsx:222-226 | a click flips that id's open state and no other |
| Spread.ExportedViewer.Prev | App.tsx:399 | back two pages unless at the start |
| Spread.ExportedViewer.Next | App.tsx:400 | on two pages while a later spread exists |
| Spread.ExportedViewer.UpdateView | App.tsx:372-397 | both sides show their pages' nodes with the viewer's open states, the buttons' disabled flags follow the spread, and exactly the active dot of ceil(n/2) is lit |
| Spread.ExportedViewer.RenderPage | App.tsx:217-228 | each node is drawn in order at its position, open per the viewer's own map |

## Left out

- Markup, CSS, icons, labels and units are not modelled. Only the values the rendering derives from props (sizes, patterns, film pictures) are.
- Rasterising the preview to an image and building the exported HTML text are not modelled; the exported viewer's script logic is.
- Audio playback (`isPlaying`, the page-turn sound) is left out: it is I/O.
- Editor scale computation and window resizing are left out: they depend only on the window size.
- `FileReader` is left out. The uploaded data URL is a parameter.
- The AI service is a parameter: its answer, or none.
- Timer timing: the 400 ms delay is modelled only as the order in which pending flips commit.
- `Date.now()` and `Math.random()` are parameters.
- The sidebar, the sticker editor, categories, user stickers and the template icons (`getIcon`) are not part of this model.
- The colour, select and text controls pass a one-key map `{ [key]: value }` to `onUpdateProps`. That is `Editor.App.PanelUpdateProps` with such a map; they have no member of their own.
- Canvas and panel callbacks read `currentPage` from the render they were created in. The model reads the current state; stale closures between renders are not modelled.
- Document.AddNodeToBook: an add on a page index the scrapbook lacks would throw in the source; the model leaves that scrapbook unchanged. Every scrapbook has four pages and the index stays below four, so it cannot happen in the editor.
- PropertyPanel.RangeEdit: `parseInt` of text with no leading digits gives NaN in the source and is stored; the model returns None there.
- InteractiveNode.NumOr: a non-empty string value is taken as the value in the source and coerced in arithmetic; the model treats a non-number value as the default.
- InteractiveNode.BackgroundStyle: a pattern name that is an inherited object key (such as `toString`) is not modelled; such names draw "none".
- InteractiveNode.ImagesText: a non-string `images` value is read as the empty list.
- PropertyPanel.HandleFileUpload: the panel's controls upload only `images`, `imgBg` and `audioUrl`; the model also routes `imgTop` to its node field, which no control uploads; any other key gives no edit in the model.
- PropertyPanel.AiPatch: answers with missing fields are not modelled. An answer is a title and a description.
- Editor.App.PreviewToggleOpen: the source also writes the new node list into the old page object in place, through a shared reference. The model treats the edit as a value update.
- Canvas.DropPoint: requires a canvas of positive size; the source divides by the on-screen width and height.
- Floating point is modelled as exact reals.
- Text.ParseInt reads decimal text only. JavaScript's `parseInt` with no radix also reads a `0x` prefix as hexadecimal; the slider texts it is given are decimal, so that case does not arise here.
