// The document model of the scrapbook editor: node types, property schemas,
// nodes, connections, pages and scrapbooks (types.ts).

module Types {

  datatype Option<T> = None | Some(value: T)

  /** The closed set of fourteen node tags; `Custom` is the fallback tag that
      has no template. */
  datatype NodeType =
    | Envelope | Drawer | Flipbox | News | Accordion | Wanted | Suit
    | Window | Polaroid | Record | Filmroll | Text | Sticker | Custom

  /** The tag as it travels in drag-and-drop data and in the exported page. */
  function TypeName(t: NodeType): string
  {
    match t
    case Envelope => "envelope"
    case Drawer => "drawer"
    case Flipbox => "flipbox"
    case News => "news"
    case Accordion => "accordion"
    case Wanted => "wanted"
    case Suit => "suit"
    case Window => "window"
    case Polaroid => "polaroid"
    case Record => "record"
    case Filmroll => "filmroll"
    case Text => "text"
    case Sticker => "sticker"
    case Custom => "custom"
  }

  /** Reads a tag back from its name; any other string is no node type. */
  function ParseType(s: string): (r: Option<NodeType>)
    ensures r.Some? ==> TypeName(r.value) == s
  {
    if s == "envelope" then Some(Envelope)
    else if s == "drawer" then Some(Drawer)
    else if s == "flipbox" then Some(Flipbox)
    else if s == "news" then Some(News)
    else if s == "accordion" then Some(Accordion)
    else if s == "wanted" then Some(Wanted)
    else if s == "suit" then Some(Suit)
    else if s == "window" then Some(Window)
    else if s == "polaroid" then Some(Polaroid)
    else if s == "record" then Some(Record)
    else if s == "filmroll" then Some(Filmroll)
    else if s == "text" then Some(Text)
    else if s == "sticker" then Some(Sticker)
    else if s == "custom" then Some(Custom)
    else None
  }

  /** Every tag is read back from its own name, so names are distinct. */
  lemma ParseTypeName(t: NodeType)
    ensures ParseType(TypeName(t)) == Some(t)
  {
  }

  /** A property value: the source stores strings and numbers. */
  datatype PropValue = Str(s: string) | Num(n: real)

  type Props = map<string, PropValue>

  /** The five kinds of editable property. */
  datatype PropKind = Range | Color | TextField | Select | Audio

  /** One editable property of a template; option labels, field labels and
      units are display text and are not kept. */
  datatype PropDefinition = PropDefinition(
    key: string,
    kind: PropKind,
    options: seq<PropValue>,
    min: Option<real>,
    max: Option<real>,
    def: PropValue)

  datatype Template = Template(tag: NodeType, props: seq<PropDefinition>)

  type NodeId = int

  /** A placed node; `imgTop` is optional. */
  datatype Node = Node(
    id: NodeId,
    tag: NodeType,
    x: real,
    y: real,
    props: Props,
    imgBg: string,
    imgTop: Option<string>,
    isOpen: bool)

  /** A directed edge between two node ids; the type allows duplicates and
      self-loops. */
  datatype Connection = Connection(from: NodeId, to: NodeId)

  datatype Page = Page(id: int, nodes: seq<Node>, connections: seq<Connection>)

  datatype Style = Classic | SpiralAccordion

  datatype Scrapbook = Scrapbook(
    id: int,
    title: string,
    cover: string,
    categoryId: string,
    style: Style,
    pages: seq<Page>,
    lastModified: int)
}
