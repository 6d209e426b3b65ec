// The property panel (components/PropertyPanel.tsx): which controls it
// offers for the selected node, and the prop edits its controls produce --
// the film roll's comma-joined picture list above all.

module PropertyPanel {
  import opened Types
  import opened Text
  import opened Templates
  import opened Document
  import opened InteractiveNode

  // ---- the controls on offer ----

  /** `tpl.props` without the `images` entry, which has its own section. */
  function WithoutImages(defs: seq<PropDefinition>): (r: seq<PropDefinition>)
    ensures |r| <= |defs|
    ensures forall d :: d in r <==> d in defs && d.key != "images"
  {
    if defs == [] then []
    else (if defs[0].key == "images" then [] else [defs[0]]) + WithoutImages(defs[1..])
  }

  /** The controls keep template order: dropping `images` from a
      concatenation drops it from each part. */
  lemma {:induction false} WithoutImagesAppend(a: seq<PropDefinition>, b: seq<PropDefinition>)
    ensures WithoutImages(a + b) == WithoutImages(a) + WithoutImages(b)
  {
    if a != [] {
      assert (a + b)[0] == a[0];
      assert (a + b)[1..] == a[1..] + b;
      WithoutImagesAppend(a[1..], b);
    } else {
      assert a + b == b;
    }
  }

  /** The property controls the panel renders: none without a selected node
      or for a type with no template, otherwise the template's properties
      except `images`, in template order. */
  function EditableProps(selected: Option<Node>): (r: Option<seq<PropDefinition>>)
    ensures r.Some? <==> selected.Some? && FindTemplate(TEMPLATES, selected.value.tag).Some?
    ensures r.Some? ==> r.value == WithoutImages(FindTemplate(TEMPLATES, selected.value.tag).value.props)
  {
    if selected.None? then None
    else match FindTemplate(TEMPLATES, selected.value.tag)
      case None => None
      case Some(tpl) => Some(WithoutImages(tpl.props))
  }

  /** Every selected node but a `custom` one gets controls, and the picture
      list of a film roll is never among them. */
  lemma EditablePropsByTag(n: Node)
    ensures EditableProps(Some(n)).Some? <==> n.tag != Custom
    ensures EditableProps(Some(n)).Some? ==>
              forall d :: d in EditableProps(Some(n)).value ==> d.key != "images"
  {
    TemplatesCoverTags(n.tag);
  }

  // ---- the picture list ----

  /** The list the panel edits: `images ? images.split(',') : []`. */
  function ImageList(text: string): (r: seq<string>)
    ensures forall i :: 0 <= i < |r| ==> ',' !in r[i]
    ensures text != "" ==> r == Split(text)
    ensures text == "" <==> r == []
  {
    if text == "" then [] else Split(text)
  }

  /** A list of two or more entries joins to text holding a comma. */
  lemma JoinNonEmpty(parts: seq<string>)
    requires |parts| >= 2
    ensures Join(parts) != ""
  {
    assert Join(parts) == parts[0] + "," + Join(parts[1..]);
  }

  /** Reading back a stored list gives it again when no entry holds a comma,
      except that a single empty entry reads back as the empty list. */
  lemma ImageListJoin(parts: seq<string>)
    requires forall i :: 0 <= i < |parts| ==> ',' !in parts[i]
    requires parts != [""]
    ensures ImageList(Join(parts)) == parts
  {
    if |parts| >= 2 {
      JoinNonEmpty(parts);
      SplitJoin(parts);
    } else if |parts| == 1 {
      assert Join(parts) == parts[0];
      SplitJoin(parts);
    }
  }

  /** The displayed picture count: `images?.split(',').filter(Boolean).length || 0`,
      the number of comma-separated entries that are not the empty string. */
  function ImageCount(props: Props): (r: nat)
    ensures r == |NonEmptyPositions(Split(ImagesText(props)))|
    ensures ImagesText(props) == "" ==> r == 0
    ensures r <= |ImageList(ImagesText(props))|
  {
    NonEmptyCount(Split(ImagesText(props)));
    |NonEmpty(Split(ImagesText(props)))|
  }

  /** The count takes in entries holding only spaces, which the film roll does
      not show. */
  lemma CountIncludesBlankEntries(imgBg: string)
    ensures ImageCount(map["images" := Str("a, ")]) == 2
    ensures LiveFilmImages(map["images" := Str("a, ")], imgBg) == ["a"]
  {
    var props := map["images" := Str("a, ")];
    assert ImagesText(props) == "a, ";
    SplitNoComma(" ");
    SplitAtComma("a", " ");
    assert "a" + "," + " " == "a, ";
    assert NonEmpty(["a", " "]) == ["a", " "];
    assert IsBlank(" ") && !IsBlank("a");
    assert NonBlank(["a", " "]) == ["a"];
  }

  /** `currentImages[i] = v` on a JavaScript array: replaces an entry that
      exists, pads with holes (joined as "") up to a later index, and only
      adds a non-index property for a negative one. */
  function AssignAt(list: seq<string>, i: int, v: string): (r: seq<string>)
    ensures 0 <= i < |list| ==> r == list[i := v]
    ensures i < 0 ==> r == list
    ensures i >= |list| ==>
              && |r| == i + 1 && r[..|list|] == list && r[i] == v
              && forall j :: |list| <= j < i ==> r[j] == ""
  {
    if i < 0 then list
    else if i < |list| then list[i := v]
    else list + seq(i - |list|, _ => "") + [v]
  }

  /** The list branch of `handleFileUpload`: the uploaded data goes in at
      `arrayIdx` when one is given, at the end otherwise, and the list is
      stored joined with commas. */
  function UploadToList(text: string, arrayIdx: Option<int>, data: string): (r: string)
    ensures arrayIdx.None? ==> r == Join(ImageList(text) + [data])
    ensures arrayIdx.Some? ==> r == Join(AssignAt(ImageList(text), arrayIdx.value, data))
  {
    var list := ImageList(text);
    Join(if arrayIdx.Some? then AssignAt(list, arrayIdx.value, data) else list + [data])
  }

  /** An appended entry with no comma reads back as one more entry, the last. */
  lemma UploadAppends(text: string, data: string)
    requires ',' !in data
    requires text != "" || data != ""
    ensures ImageList(UploadToList(text, None, data)) == ImageList(text) + [data]
    ensures ImageCount(map["images" := Str(UploadToList(text, None, data))])
            == |NonEmpty(ImageList(text) + [data])|
  {
    var parts := ImageList(text) + [data];
    assert forall i :: 0 <= i < |parts| ==> ',' !in parts[i] by {
      assert forall i :: 0 <= i < |parts| - 1 ==> parts[i] == ImageList(text)[i];
    }
    ImageListJoin(parts);
    var props := map["images" := Str(UploadToList(text, None, data))];
    assert ImagesText(props) == Join(parts);
    assert Split(Join(parts)) == parts;
  }

  /** `readAsDataURL` text (`data:<type>;base64,<payload>`) holds a comma,
      so one uploaded picture reads back as two entries, appended to
      whatever list was there. */
  lemma DataUrlUploadSplits(text: string, head: string, tail: string)
    requires ',' !in head && ',' !in tail
    ensures ImageList(UploadToList(text, None, head + "," + tail)) == ImageList(text) + [head, tail]
  {
    var list := ImageList(text);
    var parts := list + [head, tail];
    JoinLastSplits(list, head, tail);
    assert forall i :: 0 <= i < |parts| ==> ',' !in parts[i] by {
      assert forall i :: 0 <= i < |list| ==> parts[i] == list[i];
    }
    JoinNonEmpty(parts);
    SplitJoin(parts);
  }

  /** `list.splice(idx, 1)`: a negative index counts from the end (clamped at
      0), an index past the end removes nothing. */
  function SpliceOne(list: seq<string>, idx: int): (r: seq<string>)
    ensures 0 <= idx < |list| ==> r == list[..idx] + list[idx + 1..]
    ensures idx >= |list| ==> r == list
    ensures -|list| <= idx < 0 ==> r == list[..|list| + idx] + list[|list| + idx + 1..]
    ensures idx < -|list| && list != [] ==> r == list[1..]
    ensures |r| == (if list == [] || idx >= |list| then |list| else |list| - 1)
  {
    var start := if idx < 0 then (if |list| + idx < 0 then 0 else |list| + idx) else idx;
    if start < |list| then list[..start] + list[start + 1..] else list
  }

  /** `removeFilmImage(idx)`: the list without entry `idx`, joined again. */
  function RemoveFilmImage(text: string, idx: int): string
  {
    Join(SpliceOne(ImageList(text), idx))
  }

  /** Removing entry `idx` of the displayed list reads back as the list
      without it, unless what remains is a single empty entry. */
  lemma RemoveFilmImageReadsBack(text: string, idx: int)
    requires 0 <= idx < |ImageList(text)|
    requires SpliceOne(ImageList(text), idx) != [""]
    ensures var list := ImageList(text);
      ImageList(RemoveFilmImage(text, idx)) == list[..idx] + list[idx + 1..]
  {
    var list := ImageList(text);
    var rest := SpliceOne(list, idx);
    assert forall i :: 0 <= i < |rest| ==> ',' !in rest[i] by {
      forall i | 0 <= i < |rest|
        ensures ',' !in rest[i]
      {
        if i < idx {
          assert rest[i] == list[i];
        } else {
          assert rest[i] == list[i + 1];
        }
      }
    }
    ImageListJoin(rest);
  }

  /** The list branch of `handleFileUpload` as it runs: the local copy of the
      list is written at `arrayIdx` or pushed onto, then joined. With no index
      and a comma-free entry, the stored text reads back as one more entry. */
  method UploadIntoList(text: string, arrayIdx: Option<int>, data: string) returns (joined: string)
    ensures joined == UploadToList(text, arrayIdx, data)
    ensures arrayIdx.None? && ',' !in data && (text != "" || data != "") ==>
              ImageList(joined) == ImageList(text) + [data]
  {
    var currentImages := if text != "" then Split(text) else [];
    if arrayIdx.Some? {
      currentImages := AssignAt(currentImages, arrayIdx.value, data);
    } else {
      currentImages := currentImages + [data];
    }
    joined := Join(currentImages);
    if arrayIdx.None? && ',' !in data && (text != "" || data != "") {
      UploadAppends(text, data);
    }
  }

  /** `removeFilmImage` as it runs: the local copy of the list is spliced,
      then joined. Removing a shown entry reads back as the list without it,
      unless what remains is a single empty entry. */
  method RemoveFromList(text: string, idx: int) returns (joined: string)
    ensures joined == RemoveFilmImage(text, idx)
    ensures 0 <= idx < |ImageList(text)| && SpliceOne(ImageList(text), idx) != [""] ==>
              ImageList(joined) == ImageList(text)[..idx] + ImageList(text)[idx + 1..]
  {
    var currentImages := if text != "" then Split(text) else [];
    currentImages := SpliceOne(currentImages, idx);
    joined := Join(currentImages);
    if 0 <= idx < |ImageList(text)| && SpliceOne(ImageList(text), idx) != [""] {
      RemoveFilmImageReadsBack(text, idx);
    }
  }

  // ---- the other uploads, the AI helper and the range slider ----

  /** What an upload asks the editor to do: merge props, or write a node field. */
  function HandleFileUpload(props: Props, key: string, isArray: bool, arrayIdx: Option<int>, data: string)
    : (r: Option<NodeEdit>)
    ensures isArray ==> r == Some(Merge(map["images" := Str(UploadToList(ImagesText(props), arrayIdx, data))]))
    ensures !isArray && key == "audioUrl" ==> r == Some(Merge(map["audioUrl" := Str(data)]))
    ensures !isArray && key == "imgBg" ==> r.Some? && r.value.Patch?
    ensures !isArray && key !in {"audioUrl", "imgBg", "imgTop"} ==> r.None?
  {
    if isArray then Some(Merge(map["images" := Str(UploadToList(ImagesText(props), arrayIdx, data))]))
    else if key == "audioUrl" then Some(Merge(map["audioUrl" := Str(data)]))
    else if key == "imgBg" then Some(Patch(NodePatch(None, None, Some(data), None, None)))
    else if key == "imgTop" then Some(Patch(NodePatch(None, None, None, Some(data), None)))
    else None
  }

  /** A background upload replaces `imgBg` and nothing else; an audio upload
      replaces the `audioUrl` prop and nothing else. */
  lemma UploadRouting(n: Node, data: string)
    ensures var e := HandleFileUpload(n.props, "imgBg", false, None, data).value;
      EditNode(n, e) == n.(imgBg := data)
    ensures var e := HandleFileUpload(n.props, "audioUrl", false, None, data).value;
      EditNode(n, e) == n.(props := n.props["audioUrl" := Str(data)])
  {
    var e := HandleFileUpload(n.props, "audioUrl", false, None, data).value;
    assert EditNode(n, e).props == n.props["audioUrl" := Str(data)];
  }

  /** The AI service's answer. */
  datatype Suggestion = Suggestion(title: string, description: string)

  /** `handleAiMagic`: with a non-empty prompt and an answer, the props to
      merge are the title and, as text, the description or else the title. */
  function AiPatch(prompt: string, result: Option<Suggestion>): (r: Option<Props>)
    ensures r.Some? <==> prompt != "" && result.Some?
    ensures r.Some? ==> r.value.Keys == {"title", "text"}
    ensures r.Some? ==> r.value["title"] == Str(result.value.title)
    ensures r.Some? ==> r.value["text"] == Str(if result.value.description != "" then result.value.description
                                                 else result.value.title)
  {
    if prompt == "" || result.None? then None
    else
      var s := result.value;
      Some(map["title" := Str(s.title), "text" := Str(if s.description != "" then s.description else s.title)])
  }

  /** Merging an AI answer rewrites the title and text and keeps every other
      prop; the text is never left empty when the title is not. */
  lemma AiPatchKeepsOtherProps(n: Node, prompt: string, s: Suggestion)
    requires prompt != ""
    ensures var m := MergeProps(n, AiPatch(prompt, Some(s)).value);
      && (forall k :: k in n.props && k != "title" && k != "text" ==> k in m.props && m.props[k] == n.props[k])
      && (s.title != "" ==> m.props["text"] != Str(""))
  {
  }

  /** A range slider's change: `parseInt` of the slider's value text under
      the property's key. */
  function RangeEdit(key: string, value: string): (r: Option<Props>)
    ensures r.Some? <==> ParseInt(value).Some?
    ensures r.Some? ==> r.value == map[key := Num(ParseInt(value).value as real)]
  {
    match ParseInt(value)
    case None => None
    case Some(n) => Some(map[key := Num(n as real)])
  }

  /** A slider showing integer `n` stores `n`. */
  lemma RangeEditReadsSlider(key: string, n: int)
    ensures RangeEdit(key, IntToString(n)) == Some(map[key := Num(n as real)])
  {
    ParseIntToString(n);
  }

  /** `parseInt` stops at the decimal point. */
  lemma RangeEditTruncates(key: string)
    ensures RangeEdit(key, "12.5") == Some(map[key := Num(12.0)])
  {
    var s := "12.5";
    assert TrimStart(s) == s by {
      assert !IsWhite(s[0]);
    }
    assert DigitRun(s) == 2 by {
      assert s[1..] == "2.5" && s[1..][1..] == ".5";
      assert DigitRun(".5") == 0;
    }
    assert DigitsValue("12") == 12 by {
      assert "12"[..1] == "1";
      assert DigitsValue("1") == 1 by {
        assert "1"[..0] == "";
      }
    }
    assert s[..2] == "12";
    assert ParseDigits(s) == Some(12);
    assert ParseInt(s) == Some(12);
  }
}
