// One node on the canvas (components/InteractiveNode.tsx): the mouse-down /
// drag / mouse-up state machine, and the pure rules the renderer derives from
// a node's props (background pattern, film-roll pictures, open/closed sizes).

module InteractiveNode {
  import opened Types
  import opened Text
  import opened Templates
  import opened Canvas

  // ---- pointer handling ----

  /** What a mouse-down on a node asks of the canvas. */
  datatype DownEffect = Ignored | ConnectRequested | SelectRequested

  /** The position a move asks for: the node's position plus the pointer's
      movement since the reference point, in screen units (there is no
      division by the editor's zoom). */
  function DragStep(pos: Point, reference: Point, pointer: Point): (r: Point)
    ensures r.x - pos.x == pointer.x - reference.x
    ensures r.y - pos.y == pointer.y - reference.y
  {
    Point(pos.x + pointer.x - reference.x, pos.y + pointer.y - reference.y)
  }

  /** A run of moves, each one applied (and re-rendered) before the next:
      the position after the last. */
  function Replay(pos: Point, reference: Point, pointers: seq<Point>): Point
    decreases |pointers|
  {
    if pointers == [] then pos
    else Replay(DragStep(pos, reference, pointers[0]), pointers[0], pointers[1..])
  }

  /** The deltas telescope: a drag moves the node by exactly the pointer's
      total displacement from where it went down. */
  lemma {:induction false} ReplayTelescopes(pos: Point, reference: Point, pointers: seq<Point>)
    requires pointers != []
    decreases |pointers|
    ensures var last := pointers[|pointers| - 1];
      Replay(pos, reference, pointers)
        == Point(pos.x + last.x - reference.x, pos.y + last.y - reference.y)
  {
    if |pointers| > 1 {
      ReplayTelescopes(DragStep(pos, reference, pointers[0]), pointers[0], pointers[1..]);
    }
  }

  /** The drag state of one rendered node: the `isDragging` flag and the
      `dragStart` reference point. */
  class NodeDrag {
    const readOnly: bool
    var isDragging: bool
    var start: Point

    /** A read-only node never starts a drag. */
    ghost predicate Valid()
      reads this
    {
      readOnly ==> !isDragging
    }

    constructor (readOnly: bool)
      ensures Valid()
      ensures this.readOnly == readOnly && !isDragging && start == Point(0.0, 0.0)
    {
      this.readOnly := readOnly;
      isDragging := false;
      start := Point(0.0, 0.0);
    }

    /** `handleMouseDown`: ignored when read-only; with a connection pending
        it only asks to connect; otherwise it selects the node, starts the
        drag and records the pointer as the reference. */
    method MouseDown(isConnecting: bool, pointer: Point) returns (effect: DownEffect)
      requires Valid()
      modifies this`isDragging, this`start
      ensures Valid()
      ensures readOnly ==> effect == Ignored && unchanged(this)
      ensures !readOnly && isConnecting ==> effect == ConnectRequested && unchanged(this)
      ensures !readOnly && !isConnecting ==>
                effect == SelectRequested && isDragging && start == pointer
    {
      if readOnly {
        return Ignored;
      }
      if isConnecting {
        return ConnectRequested;
      }
      isDragging := true;
      start := pointer;
      return SelectRequested;
    }

    /** The window's mouse-move while dragging: asks to move the node (at
        `pos`) by the pointer's movement and makes the pointer the new
        reference; outside a drag nothing happens. */
    method MouseMove(pos: Point, pointer: Point) returns (move: Option<Point>)
      requires Valid()
      modifies this`start
      ensures Valid()
      ensures isDragging ==> move == Some(DragStep(pos, old(start), pointer)) && start == pointer
      ensures !isDragging ==> move.None? && start == old(start)
    {
      if isDragging && !readOnly {
        move := Some(DragStep(pos, start, pointer));
        start := pointer;
      } else {
        move := None;
      }
    }

    /** The window's mouse-up ends the drag. */
    method MouseUp()
      requires Valid()
      modifies this`isDragging
      ensures Valid() && !isDragging
    {
      isDragging := false;
    }
  }

  // ---- values read from props ----

  /** A JavaScript falsy property value: absent, `0` or `""`. */
  predicate Falsy(v: Option<PropValue>)
  {
    v.None? || v == Some(Num(0.0)) || v == Some(Str(""))
  }

  function Get(props: Props, key: string): Option<PropValue>
  {
    if key in props then Some(props[key]) else None
  }

  /** `props[key] || def` for a numeric property. */
  function NumOr(props: Props, key: string, def: real): (r: real)
    ensures Falsy(Get(props, key)) ==> r == def
    ensures key in props && props[key].Num? && props[key].n != 0.0 ==> r == props[key].n
  {
    if key in props && props[key].Num? && props[key].n != 0.0 then props[key].n else def
  }

  /** A string property, or "" when it is absent or not a string. */
  function StrOf(props: Props, key: string): string
  {
    if key in props && props[key].Str? then props[key].s else ""
  }

  // ---- background pattern ----

  /** `getBackgroundStyle(props.bgPattern)`: the four named textures, and
      "none" for "none", for any other name and for a missing pattern. */
  function BackgroundStyle(props: Props): (r: string)
    ensures r != "none" <==> StrOf(props, "bgPattern") in {"kraft", "noise", "newspaper", "grid"}
    ensures StrOf(props, "bgPattern") == "kraft" ==>
              r == "url(\"https://www.transparenttextures.com/patterns/creampaper.png\")"
    ensures StrOf(props, "bgPattern") == "noise" ==>
              r == "url(\"https://www.transparenttextures.com/patterns/60-lines.png\")"
    ensures StrOf(props, "bgPattern") == "newspaper" ==>
              r == "url(\"https://www.transparenttextures.com/patterns/pinstriped-suit.png\")"
    ensures StrOf(props, "bgPattern") == "grid" ==>
              r == "url(\"https://www.transparenttextures.com/patterns/grid-me.png\")"
  {
    var pattern := StrOf(props, "bgPattern");
    if pattern == "kraft" then "url(\"https://www.transparenttextures.com/patterns/creampaper.png\")"
    else if pattern == "noise" then "url(\"https://www.transparenttextures.com/patterns/60-lines.png\")"
    else if pattern == "newspaper" then "url(\"https://www.transparenttextures.com/patterns/pinstriped-suit.png\")"
    else if pattern == "grid" then "url(\"https://www.transparenttextures.com/patterns/grid-me.png\")"
    else "none"
  }

  /** Every pattern the text template offers is drawn: "none" plainly, each
      other one with its own texture. */
  lemma PatternOptionsDrawn()
    ensures TextTemplate.props[6].key == "bgPattern"
    ensures forall v :: v in TextTemplate.props[6].options ==>
              v.Str? && (BackgroundStyle(map["bgPattern" := v]) == "none" <==> v.s == "none")
  {
  }

  // ---- film-roll pictures ----

  /** The comma-joined picture list of a film roll. */
  function ImagesText(props: Props): string
  {
    StrOf(props, "images")
  }

  /** The live renderer's `filmImages`: the background picture when the list
      is empty, otherwise the non-blank entries, which may be none at all. */
  function LiveFilmImages(props: Props, imgBg: string): (r: seq<string>)
    ensures ImagesText(props) == "" ==> r == [imgBg]
    ensures ImagesText(props) != "" ==> r == NonBlank(Split(ImagesText(props)))
    ensures ImagesText(props) != "" ==> forall s :: s in r <==> s in Split(ImagesText(props)) && !IsBlank(s)
  {
    var text := ImagesText(props);
    var raw := if text != "" then Split(text) else [];
    if |raw| > 0 then NonBlank(raw) else [imgBg]
  }

  /** The exported page's `filmImages`: the non-blank entries, or the
      background picture when there are none. */
  function ExportFilmImages(props: Props, imgBg: string): (r: seq<string>)
    ensures |r| >= 1
    ensures NonBlank(Split(ImagesText(props))) != [] ==> r == NonBlank(Split(ImagesText(props)))
    ensures NonBlank(Split(ImagesText(props))) == [] ==> r == [imgBg]
    ensures r == [imgBg] || forall s :: s in r <==> s in Split(ImagesText(props)) && !IsBlank(s)
  {
    var images := NonBlank(Split(ImagesText(props)));
    if |images| > 0 then images else [imgBg]
  }

  /** The two renderers show the same pictures except when the list is
      non-empty and every entry is blank: the live roll is then empty and the
      exported one shows the background picture. */
  lemma FilmImagesAgreeUnlessAllBlank(props: Props, imgBg: string)
    ensures LiveFilmImages(props, imgBg) != ExportFilmImages(props, imgBg)
            <==> ImagesText(props) != "" && NonBlank(Split(ImagesText(props))) == []
    ensures ImagesText(props) != "" && NonBlank(Split(ImagesText(props))) == [] ==>
              LiveFilmImages(props, imgBg) == [] && ExportFilmImages(props, imgBg) == [imgBg]
  {
    if ImagesText(props) == "" {
      assert Split("") == [""];
      assert IsBlank("");
      assert NonBlank([""]) == [];
    }
  }

  /** A list of one blank entry: live, no picture; exported, the background. */
  lemma FilmImagesBlankEntries(imgBg: string)
    ensures LiveFilmImages(map["images" := Str(",")], imgBg) == []
    ensures ExportFilmImages(map["images" := Str(",")], imgBg) == [imgBg]
  {
    var props := map["images" := Str(",")];
    assert ImagesText(props) == ",";
    assert Split(",") == ["", ""];
    assert NonBlank(["", ""]) == [];
  }

  // ---- open / closed sizes ----

  /** The news clipping: full size open, 0.6 by 0.4 of it closed. */
  function NewsSize(props: Props, isOpen: bool): (r: (real, real))
  {
    var w := NumOr(props, "width", 256.0);
    var h := NumOr(props, "height", 320.0);
    if isOpen then (w, h) else (w * 0.6, h * 0.4)
  }

  /** Closing a clipping scales its open size by 0.6 across and 0.4 down. */
  lemma NewsClosedScalesOpen(props: Props)
    ensures NewsSize(props, false) == (NewsSize(props, true).0 * 0.6, NewsSize(props, true).1 * 0.4)
  {
  }

  /** A clipping with no size props is 256 by 320 open and 153.6 by 128
      closed. */
  lemma NewsDefaultSize()
    ensures NewsSize(map[], true) == (256.0, 320.0)
    ensures NewsSize(map[], false) == (153.6, 128.0)
  {
  }

  /** The width of each of the accordion's four panels. */
  function AccordionPanelWidth(props: Props, isOpen: bool): real
  {
    if isOpen then NumOr(props, "width", 192.0) / 4.0 else 10.0
  }

  /** Open, the four panels span the accordion's width; closed, they are
      10 wide each whatever the width. */
  lemma AccordionSpan(props: Props)
    ensures 4.0 * AccordionPanelWidth(props, true) == NumOr(props, "width", 192.0)
    ensures forall q: Props :: AccordionPanelWidth(q, false) == AccordionPanelWidth(props, false) == 10.0
  {
  }
}
