// The template registry (constants.tsx): for each node type, the editable
// properties with their kinds, ranges, options and defaults.

module Templates {
  import opened Types

  function RangeProp(key: string, min: real, max: real, def: real): PropDefinition
  {
    PropDefinition(key, Range, [], Some(min), Some(max), Num(def))
  }

  function ColorProp(key: string, def: string): PropDefinition
  {
    PropDefinition(key, Color, [], None, None, Str(def))
  }

  function TextProp(key: string, def: string): PropDefinition
  {
    PropDefinition(key, TextField, [], None, None, Str(def))
  }

  function SelectProp(key: string, options: seq<PropValue>, def: string): PropDefinition
  {
    PropDefinition(key, Select, options, None, None, Str(def))
  }

  const TextTemplate := Template(Text, [
    TextProp("text", "点击此处编辑文字"),
    RangeProp("fontSize", 12.0, 120.0, 24.0),
    RangeProp("width", 50.0, 800.0, 200.0),
    RangeProp("padding", 0.0, 60.0, 12.0),
    ColorProp("color", "#1e293b"),
    ColorProp("bgColor", "#ffffff00"),
    SelectProp("bgPattern", [Str("none"), Str("kraft"), Str("noise"), Str("newspaper"), Str("grid")], "none"),
    ColorProp("borderColor", "#cbd5e1"),
    RangeProp("borderWidth", 0.0, 20.0, 0.0),
    RangeProp("borderRadius", 0.0, 100.0, 0.0),
    SelectProp("borderStyle", [Str("solid"), Str("dashed"), Str("dotted"), Str("double")], "solid"),
    SelectProp("fontFamily", [Str("Outfit"), Str("Shadows Into Light"), Str("Space Mono"), Str("sans-serif")], "Outfit")
  ])

  const StickerTemplate := Template(Sticker, [
    SelectProp("sticker", [Str("✨"), Str("❤️"), Str("🌈"), Str("☁️"), Str("📸"), Str("🌸"), Str("☀️"), Str("☕"), Str("🔥")], "✨"),
    RangeProp("size", 20.0, 500.0, 60.0),
    RangeProp("rotate", -180.0, 180.0, 0.0)
  ])

  const FilmrollTemplate := Template(Filmroll, [
    RangeProp("width", 60.0, 200.0, 96.0),
    RangeProp("height", 100.0, 400.0, 160.0),
    ColorProp("color", "#FFB800"),
    TextProp("title", "KODAK 400"),
    TextProp("subtitle", "35mm color film"),
    TextProp("images", "")
  ])

  const EnvelopeTemplate := Template(Envelope, [
    RangeProp("w", 150.0, 600.0, 240.0),
    RangeProp("h", 100.0, 400.0, 160.0),
    ColorProp("color", "#E5D3B3"),
    TextProp("letterText", "亲爱的创作者：\n\n每一行代码都是一首诗。"),
    RangeProp("fontSize", 10.0, 40.0, 14.0),
    ColorProp("textColor", "#444444"),
    SelectProp("fontFamily", [Str("Shadows Into Light"), Str("Outfit"), Str("Space Mono")], "Shadows Into Light")
  ])

  const RecordTemplate := Template(Record, [
    RangeProp("width", 150.0, 600.0, 208.0),
    RangeProp("height", 120.0, 500.0, 176.0),
    ColorProp("color", "#2d3436"),
    TextProp("title", "My Favorite Song"),
    TextProp("audioUrl", "https://assets.mixkit.co/active_storage/sfx/123/123-preview.mp3")
  ])

  const DrawerTemplate := Template(Drawer, [
    RangeProp("width", 100.0, 600.0, 192.0),
    RangeProp("height", 60.0, 400.0, 112.0),
    ColorProp("color", "#F8F9FA"),
    TextProp("title", "私密收藏")
  ])

  const FlipboxTemplate := Template(Flipbox, [
    RangeProp("width", 80.0, 600.0, 160.0),
    RangeProp("height", 80.0, 600.0, 160.0),
    ColorProp("color", "#4dabf7"),
    TextProp("title", "点击开启惊喜")
  ])

  const NewsTemplate := Template(News, [
    RangeProp("width", 150.0, 800.0, 256.0),
    RangeProp("height", 150.0, 800.0, 320.0),
    TextProp("title", "今日头条：美好生活")
  ])

  const AccordionTemplate := Template(Accordion, [
    RangeProp("width", 100.0, 600.0, 192.0),
    RangeProp("height", 80.0, 500.0, 128.0),
    TextProp("title", "2024 回忆录")
  ])

  const WantedTemplate := Template(Wanted, [
    RangeProp("width", 100.0, 600.0, 192.0),
    RangeProp("height", 150.0, 800.0, 256.0),
    TextProp("title", "赏金 $100,000")
  ])

  const SuitTemplate := Template(Suit, [
    RangeProp("width", 100.0, 600.0, 192.0),
    RangeProp("height", 150.0, 800.0, 224.0),
    ColorProp("color", "#1971c2"),
    TextProp("title", "去巴黎旅行")
  ])

  const WindowTemplate := Template(Window, [
    RangeProp("width", 100.0, 600.0, 192.0),
    RangeProp("height", 100.0, 600.0, 192.0),
    ColorProp("color", "#868e96")
  ])

  const PolaroidTemplate := Template(Polaroid, [
    RangeProp("width", 80.0, 500.0, 128.0),
    TextProp("title", "那天的阳光真好")
  ])

  /** The registry, in the order the palette lists it. */
  const TEMPLATES := [
    TextTemplate, StickerTemplate, FilmrollTemplate, EnvelopeTemplate,
    RecordTemplate, DrawerTemplate, FlipboxTemplate, NewsTemplate,
    AccordionTemplate, WantedTemplate, SuitTemplate, WindowTemplate,
    PolaroidTemplate
  ]

  /** `templates.find(t => t.type === tag)`: the first template of that tag. */
  function FindTemplate(templates: seq<Template>, tag: NodeType): (r: Option<Template>)
    ensures r.Some? <==> exists i :: 0 <= i < |templates| && templates[i].tag == tag
    ensures r.Some? ==> r.value.tag == tag && r.value in templates
    ensures r.Some? ==> exists i :: 0 <= i < |templates| && templates[i] == r.value
                           && forall j :: 0 <= j < i ==> templates[j].tag != tag
  {
    if templates == [] then None
    else if templates[0].tag == tag then Some(templates[0])
    else
      var rest := FindTemplate(templates[1..], tag);
      assert forall i :: 1 <= i < |templates| ==> templates[i] == templates[1..][i - 1];
      rest
  }

  // ---- what the table promises ----

  /** A range property declares both bounds and a numeric default between them. */
  predicate RangeWellFormed(p: PropDefinition)
  {
    p.kind == Range ==>
      p.min.Some? && p.max.Some? && p.def.Num? && p.min.value <= p.def.n <= p.max.value
  }

  /** A select property's default is one of its option values. */
  predicate SelectWellFormed(p: PropDefinition)
  {
    p.kind == Select ==> p.def in p.options
  }

  predicate KeysDistinct(defs: seq<PropDefinition>)
  {
    forall i, j :: 0 <= i < j < |defs| ==> defs[i].key != defs[j].key
  }

  predicate WellFormed(t: Template)
  {
    && KeysDistinct(t.props)
    && (forall i :: 0 <= i < |t.props| ==> RangeWellFormed(t.props[i]))
    && (forall i :: 0 <= i < |t.props| ==> SelectWellFormed(t.props[i]))
  }

  /** The text template's twelve keys are pairwise distinct. */
  lemma TextKeysDistinct()
    ensures KeysDistinct(TextTemplate.props)
  {
    var p := TextTemplate.props;
    assert p[0].key == "text" && p[1].key == "fontSize" && p[2].key == "width";
    assert p[3].key == "padding" && p[4].key == "color" && p[5].key == "bgColor";
    assert p[6].key == "bgPattern" && p[7].key == "borderColor" && p[8].key == "borderWidth";
    assert p[9].key == "borderRadius" && p[10].key == "borderStyle" && p[11].key == "fontFamily";
  }

  lemma TextTemplateWellFormed()
    ensures WellFormed(TextTemplate)
  {
    var p := TextTemplate.props;
    TextKeysDistinct();
    assert forall i :: 0 <= i < |p| ==> RangeWellFormed(p[i]);
    assert forall i :: 0 <= i < |p| ==> SelectWellFormed(p[i]);
  }

  lemma StickerTemplateWellFormed()
    ensures WellFormed(StickerTemplate)
  {
    var p := StickerTemplate.props;
    assert KeysDistinct(p) by {
      assert p[0].key == "sticker";
      assert p[1].key == "size";
      assert p[2].key == "rotate";
    }
    assert forall i :: 0 <= i < |p| ==> RangeWellFormed(p[i]);
    assert forall i :: 0 <= i < |p| ==> SelectWellFormed(p[i]);
  }

  lemma FilmrollTemplateWellFormed()
    ensures WellFormed(FilmrollTemplate)
  {
    var p := FilmrollTemplate.props;
    assert KeysDistinct(p) by {
      assert p[0].key == "width";
      assert p[1].key == "height";
      assert p[2].key == "color";
      assert p[3].key == "title";
      assert p[4].key == "subtitle";
      assert p[5].key == "images";
    }
    assert forall i :: 0 <= i < |p| ==> RangeWellFormed(p[i]);
    assert forall i :: 0 <= i < |p| ==> SelectWellFormed(p[i]);
  }

  lemma EnvelopeTemplateWellFormed()
    ensures WellFormed(EnvelopeTemplate)
  {
    var p := EnvelopeTemplate.props;
    assert KeysDistinct(p) by {
      assert p[0].key == "w";
      assert p[1].key == "h";
      assert p[2].key == "color";
      assert p[3].key == "letterText";
      assert p[4].key == "fontSize";
      assert p[5].key == "textColor";
      assert p[6].key == "fontFamily";
    }
    assert forall i :: 0 <= i < |p| ==> RangeWellFormed(p[i]);
    assert forall i :: 0 <= i < |p| ==> SelectWellFormed(p[i]);
  }

  lemma RecordTemplateWellFormed()
    ensures WellFormed(RecordTemplate)
  {
    var p := RecordTemplate.props;
    assert KeysDistinct(p) by {
      assert p[0].key == "width";
      assert p[1].key == "height";
      assert p[2].key == "color";
      assert p[3].key == "title";
      assert p[4].key == "audioUrl";
    }
    assert forall i :: 0 <= i < |p| ==> RangeWellFormed(p[i]);
    assert forall i :: 0 <= i < |p| ==> SelectWellFormed(p[i]);
  }

  lemma DrawerTemplateWellFormed()
    ensures WellFormed(DrawerTemplate)
  {
    var p := DrawerTemplate.props;
    assert KeysDistinct(p) by {
      assert p[0].key == "width";
      assert p[1].key == "height";
      assert p[2].key == "color";
      assert p[3].key == "title";
    }
    assert forall i :: 0 <= i < |p| ==> RangeWellFormed(p[i]);
    assert forall i :: 0 <= i < |p| ==> SelectWellFormed(p[i]);
  }

  lemma FlipboxTemplateWellFormed()
    ensures WellFormed(FlipboxTemplate)
  {
    var p := FlipboxTemplate.props;
    assert KeysDistinct(p) by {
      assert p[0].key == "width";
      assert p[1].key == "height";
      assert p[2].key == "color";
      assert p[3].key == "title";
    }
    assert forall i :: 0 <= i < |p| ==> RangeWellFormed(p[i]);
    assert forall i :: 0 <= i < |p| ==> SelectWellFormed(p[i]);
  }

  lemma NewsTemplateWellFormed()
    ensures WellFormed(NewsTemplate)
  {
    var p := NewsTemplate.props;
    assert KeysDistinct(p) by {
      assert p[0].key == "width";
      assert p[1].key == "height";
      assert p[2].key == "title";
    }
    assert forall i :: 0 <= i < |p| ==> RangeWellFormed(p[i]);
    assert forall i :: 0 <= i < |p| ==> SelectWellFormed(p[i]);
  }

  lemma AccordionTemplateWellFormed()
    ensures WellFormed(AccordionTemplate)
  {
    var p := AccordionTemplate.props;
    assert KeysDistinct(p) by {
      assert p[0].key == "width";
      assert p[1].key == "height";
      assert p[2].key == "title";
    }
    assert forall i :: 0 <= i < |p| ==> RangeWellFormed(p[i]);
    assert forall i :: 0 <= i < |p| ==> SelectWellFormed(p[i]);
  }

  lemma WantedTemplateWellFormed()
    ensures WellFormed(WantedTemplate)
  {
    var p := WantedTemplate.props;
    assert KeysDistinct(p) by {
      assert p[0].key == "width";
      assert p[1].key == "height";
      assert p[2].key == "title";
    }
    assert forall i :: 0 <= i < |p| ==> RangeWellFormed(p[i]);
    assert forall i :: 0 <= i < |p| ==> SelectWellFormed(p[i]);
  }

  lemma SuitTemplateWellFormed()
    ensures WellFormed(SuitTemplate)
  {
    var p := SuitTemplate.props;
    assert KeysDistinct(p) by {
      assert p[0].key == "width";
      assert p[1].key == "height";
      assert p[2].key == "color";
      assert p[3].key == "title";
    }
    assert forall i :: 0 <= i < |p| ==> RangeWellFormed(p[i]);
    assert forall i :: 0 <= i < |p| ==> SelectWellFormed(p[i]);
  }

  lemma WindowTemplateWellFormed()
    ensures WellFormed(WindowTemplate)
  {
    var p := WindowTemplate.props;
    assert KeysDistinct(p) by {
      assert p[0].key == "width";
      assert p[1].key == "height";
      assert p[2].key == "color";
    }
    assert forall i :: 0 <= i < |p| ==> RangeWellFormed(p[i]);
    assert forall i :: 0 <= i < |p| ==> SelectWellFormed(p[i]);
  }

  lemma PolaroidTemplateWellFormed()
    ensures WellFormed(PolaroidTemplate)
  {
    var p := PolaroidTemplate.props;
    assert KeysDistinct(p) by {
      assert p[0].key == "width";
      assert p[1].key == "title";
    }
    assert forall i :: 0 <= i < |p| ==> RangeWellFormed(p[i]);
    assert forall i :: 0 <= i < |p| ==> SelectWellFormed(p[i]);
  }

  /** Every template of the registry is well formed. */
  lemma TemplatesWellFormed()
    ensures forall i :: 0 <= i < |TEMPLATES| ==> WellFormed(TEMPLATES[i])
  {
    TextTemplateWellFormed();
    StickerTemplateWellFormed();
    FilmrollTemplateWellFormed();
    EnvelopeTemplateWellFormed();
    RecordTemplateWellFormed();
    DrawerTemplateWellFormed();
    FlipboxTemplateWellFormed();
    NewsTemplateWellFormed();
    AccordionTemplateWellFormed();
    WantedTemplateWellFormed();
    SuitTemplateWellFormed();
    WindowTemplateWellFormed();
    PolaroidTemplateWellFormed();
  }

  /** The position of each tag in the registry; `Custom` has none and gets 13. */
  function TagIndex(tag: NodeType): nat
  {
    match tag
    case Text => 0 case Sticker => 1 case Filmroll => 2 case Envelope => 3
    case Record => 4 case Drawer => 5 case Flipbox => 6 case News => 7
    case Accordion => 8 case Wanted => 9 case Suit => 10 case Window => 11
    case Polaroid => 12 case Custom => 13
  }

  /** The tags of the registry, in order. */
  lemma TemplateTags()
    ensures |TEMPLATES| == 13
    ensures TEMPLATES[0].tag == Text && TEMPLATES[1].tag == Sticker
    ensures TEMPLATES[2].tag == Filmroll && TEMPLATES[3].tag == Envelope
    ensures TEMPLATES[4].tag == Record && TEMPLATES[5].tag == Drawer
    ensures TEMPLATES[6].tag == Flipbox && TEMPLATES[7].tag == News
    ensures TEMPLATES[8].tag == Accordion && TEMPLATES[9].tag == Wanted
    ensures TEMPLATES[10].tag == Suit && TEMPLATES[11].tag == Window
    ensures TEMPLATES[12].tag == Polaroid
  {
    assert TEMPLATES[0] == TextTemplate && TEMPLATES[1] == StickerTemplate;
    assert TEMPLATES[2] == FilmrollTemplate && TEMPLATES[3] == EnvelopeTemplate;
    assert TEMPLATES[4] == RecordTemplate && TEMPLATES[5] == DrawerTemplate;
    assert TEMPLATES[6] == FlipboxTemplate && TEMPLATES[7] == NewsTemplate;
    assert TEMPLATES[8] == AccordionTemplate && TEMPLATES[9] == WantedTemplate;
    assert TEMPLATES[10] == SuitTemplate && TEMPLATES[11] == WindowTemplate;
    assert TEMPLATES[12] == PolaroidTemplate;
  }

  /** No tag has two templates. */
  lemma TemplateTagsDistinct()
    ensures forall i, j :: 0 <= i < j < |TEMPLATES| ==> TEMPLATES[i].tag != TEMPLATES[j].tag
  {
    TemplateTags();
    forall i, j | 0 <= i < j < |TEMPLATES|
      ensures TEMPLATES[i].tag != TEMPLATES[j].tag
    {
      assert TagIndex(TEMPLATES[i].tag) == i && TagIndex(TEMPLATES[j].tag) == j;
    }
  }

  /** Every tag but `Custom` has a template. */
  lemma TemplatesCoverTags(tag: NodeType)
    ensures FindTemplate(TEMPLATES, tag).Some? <==> tag != Custom
  {
    TemplateTags();
    if tag != Custom {
      var i := TagIndex(tag);
      assert 0 <= i < |TEMPLATES| && TEMPLATES[i].tag == tag;
    } else {
      assert forall i :: 0 <= i < |TEMPLATES| ==> TEMPLATES[i].tag != Custom;
    }
  }
}
