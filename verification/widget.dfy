/**
 * The widget document (src/ink/widget/mod.rs, with the newer declarations
 * of crates/types/src/ink/widget/mod.rs): the closed set of widget kinds,
 * the compound and leaf field sets, the anonymous `inkMultiChildren`
 * wrapper, the library root, which fields are written out, and how
 * `inkMultiChildren` serialises.
 */
module Widget {
  import opened Wrappers
  import opened Numeric
  import opened Ink
  import Layout
  import Image
  import Font
  import Properties
  import WidgetBase

  /** The eight compound kinds; they share one field set. */
  datatype CompoundKind =
    | inkCanvasWidget | inkHorizontalPanelWidget | inkVerticalPanelWidget | inkScrollAreaWidget
    | inkUniformGridWidget | inkVirtualCompoundWidget | inkFlexWidget | inkCacheWidget

  /** The nine leaf kinds; text and image carry extra fields. */
  datatype LeafKind =
    | inkTextWidget(text: TextExtras)
    | inkImageWidget(image: ImageExtras)
    | inkVideoWidget | inkMaskWidget | inkBorderWidget | inkShapeWidget
    | inkCircleWidget | inkRectangleWidget | inkVectorGraphicWidget

  /**
   * Any widget: the anonymous children wrapper, a compound kind with its
   * fields, or a leaf kind with its fields. Leaves have no children field.
   */
  datatype Widget =
    | inkMultiChildren(multi: MultiChildren)
    | Compound(kind: CompoundKind, node: CompoundFields)
    | Leaf(leafKind: LeafKind, leaf: LeafFields)

  /** An ordered list of handle-wrapped widgets. */
  datatype MultiChildren = MultiChildren(children: seq<InkWrapper<Widget>>)

  /** The fields every compound kind has, and only those. */
  datatype CompoundFields = CompoundFields(
    children: InkWrapper<MultiChildren>,
    name: Name,
    childOrder: Layout.inkEChildOrder,
    childMargin: Layout.inkMargin)

  /** The fields every leaf kind has. */
  datatype LeafFields = LeafFields(
    name: Name,
    layout: Layout.inkWidgetLayout,
    propertyManager: Option<Properties.PropertyManager>,
    renderTransformPivot: Vector2,
    renderTransform: Layout.inkUITransform,
    size: Vector2)

  datatype TextExtras = TextExtras(
    localizationString: LocalizationString,
    text: string,
    fontFamily: Font.inkFontFamilyResource,
    fontStyle: Font.fontStyle,
    justification: Layout.textJustificationType,
    textLetterCase: Option<Font.textLetterCase>,
    lineHeightPercentage: real,
    textHorizontalAlignment: Font.textHorizontalAlignment,
    textVerticalAlignment: Font.textVerticalAlignment,
    textOverflowPolicy: Font.textOverflowPolicy,
    contentHAlign: Layout.inkEHorizontalAlign,
    contentVAlign: Layout.inkEVerticalAlign,
    scrollDelay: u16,
    scrollTextSpeed: real)

  datatype ImageExtras = ImageExtras(
    useExternalDynamicTexture: bool,
    externalDynamicTexture: Name,
    useNineSliceScale: bool,
    nineSliceScale: Layout.inkMargin,
    mirrorType: Image.inkBrushMirrorType,
    tileType: Image.inkBrushTileType,
    horizontalTileCrop: real,
    verticalTileCrop: real,
    textureAtlas: Image.inkTextureAtlas,
    texturePart: Name,
    contentHAlign: Layout.inkEHorizontalAlign,
    contentVAlign: Layout.inkEVerticalAlign,
    tileHAlign: Layout.inkEHorizontalAlign,
    tileVAlign: Layout.inkEVerticalAlign)

  /** A widget's own name; the children wrapper has none. */
  function NameOf(w: Widget): Option<Name> {
    match w
    case inkMultiChildren(_) => None
    case Compound(_, node) => Some(node.name)
    case Leaf(_, leaf) => Some(leaf.name)
  }

  /** The Rust type name of each kind, as `Classname::classname` returns it. */
  function Classname(w: Widget): (r: string)
    ensures r in Variants
    ensures r == "inkMultiChildren" <==> w.inkMultiChildren?
  {
    match w
    case inkMultiChildren(_) => "inkMultiChildren"
    case Compound(kind, _) => CompoundClassname(kind)
    case Leaf(kind, _) => LeafClassname(kind)
  }

  function CompoundClassname(kind: CompoundKind): string {
    match kind
    case inkCanvasWidget => "inkCanvasWidget"
    case inkHorizontalPanelWidget => "inkHorizontalPanelWidget"
    case inkVerticalPanelWidget => "inkVerticalPanelWidget"
    case inkScrollAreaWidget => "inkScrollAreaWidget"
    case inkUniformGridWidget => "inkUniformGridWidget"
    case inkVirtualCompoundWidget => "inkVirtualCompoundWidget"
    case inkFlexWidget => "inkFlexWidget"
    case inkCacheWidget => "inkCacheWidget"
  }

  function LeafClassname(kind: LeafKind): string {
    match kind
    case inkTextWidget(_) => "inkTextWidget"
    case inkImageWidget(_) => "inkImageWidget"
    case inkVideoWidget => "inkVideoWidget"
    case inkMaskWidget => "inkMaskWidget"
    case inkBorderWidget => "inkBorderWidget"
    case inkShapeWidget => "inkShapeWidget"
    case inkCircleWidget => "inkCircleWidget"
    case inkRectangleWidget => "inkRectangleWidget"
    case inkVectorGraphicWidget => "inkVectorGraphicWidget"
  }

  /** The variants of `Widget`, in declaration order. */
  const Variants: seq<string> := [
    "inkMultiChildren",
    "inkCanvasWidget", "inkHorizontalPanelWidget", "inkVerticalPanelWidget", "inkScrollAreaWidget",
    "inkUniformGridWidget", "inkVirtualCompoundWidget", "inkFlexWidget", "inkCacheWidget",
    "inkTextWidget", "inkImageWidget", "inkVideoWidget", "inkMaskWidget", "inkBorderWidget",
    "inkShapeWidget", "inkCircleWidget", "inkRectangleWidget", "inkVectorGraphicWidget"]

  /** Position of a widget's variant in the declaration. */
  function VariantIndex(w: Widget): (i: nat)
    ensures i < |Variants| && Variants[i] == Classname(w)
    ensures w.inkMultiChildren? <==> i == 0
    ensures w.Compound? <==> 1 <= i <= 8
    ensures w.Leaf? <==> 9 <= i
  {
    match w
    case inkMultiChildren(_) => 0
    case Compound(kind, _) =>
      (match kind
       case inkCanvasWidget => 1 case inkHorizontalPanelWidget => 2 case inkVerticalPanelWidget => 3
       case inkScrollAreaWidget => 4 case inkUniformGridWidget => 5 case inkVirtualCompoundWidget => 6
       case inkFlexWidget => 7 case inkCacheWidget => 8)
    case Leaf(kind, _) =>
      (match kind
       case inkTextWidget(_) => 9 case inkImageWidget(_) => 10 case inkVideoWidget => 11
       case inkMaskWidget => 12 case inkBorderWidget => 13 case inkShapeWidget => 14
       case inkCircleWidget => 15 case inkRectangleWidget => 16 case inkVectorGraphicWidget => 17)
  }

  /**
   * Exactly 18 variants: the wrapper, 8 compound kinds and 9 leaf kinds,
   * each with its own class name.
   */
  lemma EighteenKinds()
    ensures |Variants| == 18
    ensures forall i, j :: 0 <= i < j < |Variants| ==> Variants[i] != Variants[j]
  {
  }

  /** Two widgets have the same class name exactly when they are of the same variant. */
  lemma ClassnameIdentifiesVariant(v: Widget, w: Widget)
    ensures Classname(v) == Classname(w) <==> VariantIndex(v) == VariantIndex(w)
  {
    EighteenKinds();
    var i, j := VariantIndex(v), VariantIndex(w);
    if i != j {
      if i < j { assert Variants[i] != Variants[j]; } else { assert Variants[j] != Variants[i]; }
    }
  }

  /** The children of a widget that has them: the wrapper's own list, or a compound's wrapped list. */
  function ChildNodes(w: Widget): seq<InkWrapper<Widget>> {
    match w
    case inkMultiChildren(m) => m.children
    case Compound(_, node) => node.children.data.children
    case Leaf(_, _) => []
  }

  /** `InkChildren::children`: the child widgets without their handles, in order. */
  function Children(w: Widget): (cs: seq<Widget>)
    ensures |cs| == |ChildNodes(w)|
    ensures forall k :: 0 <= k < |cs| ==> cs[k] == ChildNodes(w)[k].data
  {
    seq(|ChildNodes(w)|, k requires 0 <= k < |ChildNodes(w)| => ChildNodes(w)[k].data)
  }

  // ----- library root -----

  /** A widget of the canvas kind. */
  type CanvasWidget = w: Widget | w.Compound? && w.kind == inkCanvasWidget
    witness Compound(inkCanvasWidget, CompoundFields(InkWrapper(0, MultiChildren([])), DefaultName,
                                                     Layout.DefaultChildOrder, Layout.DefaultMargin))

  /** The root instance: its root widget is a canvas by type. */
  datatype inkWidgetLibraryItemInstance = inkWidgetLibraryItemInstance(rootWidget: InkWrapper<CanvasWidget>)

  datatype Package = Package(data: File<inkWidgetLibraryItemInstance>)

  datatype inkWidgetLibraryItem = inkWidgetLibraryItem(name: Name, package: Package)

  datatype inkanimAnimationLibraryResource = inkanimAnimationLibraryResource(depotPath: DepotPath, flags: WidgetBase.Flags)

  datatype inkWidgetLibraryResource = inkWidgetLibraryResource(
    animationLibraryResRef: inkanimAnimationLibraryResource,
    libraryItems: seq<inkWidgetLibraryItem>)

  /**
   * The walks start from the root canvas's children, wrapped as an
   * `inkMultiChildren`: the same children, without the canvas's own fields.
   */
  function WalkStart(inst: inkWidgetLibraryItemInstance): (w: Widget)
    ensures w.inkMultiChildren? && ChildNodes(w) == ChildNodes(inst.rootWidget.data)
  {
    inkMultiChildren(inst.rootWidget.data.node.children.data)
  }

  /** `inkWidgetLibraryResource::root`: the first library item; a resource without items panics. */
  function Root(res: inkWidgetLibraryResource): (r: Outcome<inkWidgetLibraryItem>)
    ensures r.Panics? <==> |res.libraryItems| == 0
    ensures r.Returns? ==> r.value == res.libraryItems[0]
  {
    if |res.libraryItems| == 0 then Panics("Root") else Returns(res.libraryItems[0])
  }

  /** `root_chunk`: the root instance inside the first item's package. */
  function RootChunk(res: inkWidgetLibraryResource): (r: Outcome<inkWidgetLibraryItemInstance>)
    ensures r.Panics? <==> |res.libraryItems| == 0
    ensures r.Returns? ==> r.value == Resource(res.libraryItems[0].package.data)
  {
    match Root(res)
    case Panics(m) => Panics(m)
    case Returns(item) => Returns(item.package.data.data.rootChunk)
  }

  // ----- which fields are written out -----

  /** One serialised field: its key, and whether `skip_serializing_if` drops it. */
  datatype KeyEntry = KeyEntry(key: string, skipped: bool)

  /** The keys actually written, in declaration order. */
  function Written(entries: seq<KeyEntry>): (keys: seq<string>)
    ensures |keys| <= |entries|
  {
    if |entries| == 0 then []
    else (if entries[0].skipped then [] else [entries[0].key]) + Written(entries[1..])
  }

  /** A key is written exactly when some entry with that key is not skipped. */
  lemma {:induction false} WrittenKeys(entries: seq<KeyEntry>, key: string)
    ensures key in Written(entries) <==> exists k :: 0 <= k < |entries| && entries[k].key == key && !entries[k].skipped
  {
    if |entries| > 0 {
      WrittenKeys(entries[1..], key);
      if key in Written(entries[1..]) {
        var k :| 0 <= k < |entries[1..]| && entries[1..][k].key == key && !entries[1..][k].skipped;
        assert entries[k + 1] == entries[1..][k];
      }
      if exists k :: 0 <= k < |entries| && entries[k].key == key && !entries[k].skipped {
        var k :| 0 <= k < |entries| && entries[k].key == key && !entries[k].skipped;
        if k > 0 {
          assert entries[1..][k - 1] == entries[k];
        }
      }
    }
  }

  /** Where a key occurs once in the table, it is written exactly when its entry is not skipped. */
  lemma KeyWritten(entries: seq<KeyEntry>, k: nat)
    requires k < |entries|
    requires forall j :: 0 <= j < |entries| && j != k ==> entries[j].key != entries[k].key
    ensures entries[k].key in Written(entries) <==> !entries[k].skipped
  {
    WrittenKeys(entries, entries[k].key);
  }

  /** Nothing is written when every entry is skipped. */
  lemma {:induction false} AllSkippedWritesNothing(entries: seq<KeyEntry>)
    requires forall k :: 0 <= k < |entries| ==> entries[k].skipped
    ensures Written(entries) == []
  {
    if |entries| > 0 {
      AllSkippedWritesNothing(entries[1..]);
    }
  }

  const DefaultChildren: InkWrapper<MultiChildren> := InkWrapper(0, MultiChildren([]))

  /** Compound fields: each one is dropped when equal to its type's default. */
  function CompoundEntries(f: CompoundFields): (r: seq<KeyEntry>)
    ensures |r| == 4
    ensures forall i, j | 0 <= i < j < |r| :: r[i].key != r[j].key
  {
    [KeyEntry("children", WidgetBase.IsDefault(f.children, DefaultChildren)),
     KeyEntry("name", WidgetBase.IsDefault(f.name, DefaultName)),
     KeyEntry("childOrder", WidgetBase.IsDefault(f.childOrder, Layout.DefaultChildOrder)),
     KeyEntry("childMargin", WidgetBase.IsDefault(f.childMargin, Layout.DefaultMargin))]
  }

  /** Leaf fields: each one is dropped when equal to its type's default; the pivot's default is the centre. */
  function LeafEntries(f: LeafFields): (r: seq<KeyEntry>)
    ensures |r| == 6
    ensures forall i, j | 0 <= i < j < |r| :: r[i].key != r[j].key
  {
    [KeyEntry("name", WidgetBase.IsDefault(f.name, DefaultName)),
     KeyEntry("layout", WidgetBase.IsDefault(f.layout, Layout.DefaultLayout)),
     KeyEntry("propertyManager", WidgetBase.IsDefault(f.propertyManager, None)),
     KeyEntry("renderTransformPivot", WidgetBase.IsDefault(f.renderTransformPivot, WidgetBase.DefaultPivot)),
     KeyEntry("renderTransform", WidgetBase.IsDefault(f.renderTransform, Layout.DefaultTransform)),
     KeyEntry("size", WidgetBase.IsDefault(f.size, DefaultVector2))]
  }

  /**
   * Text extras: dropped when default, except that the localisation string
   * is dropped by `is_any_default_localization_string`.
   */
  function TextEntries(t: TextExtras): (r: seq<KeyEntry>)
    ensures |r| == 14
    ensures forall i, j | 0 <= i < j < |r| :: r[i].key != r[j].key
  {
    [KeyEntry("localizationString", IsAnyDefaultLocalizationString(t.localizationString)),
     KeyEntry("text", WidgetBase.IsDefault(t.text, "")),
     KeyEntry("fontFamily", WidgetBase.IsDefault(t.fontFamily, Font.DefaultFontFamily)),
     KeyEntry("fontStyle", WidgetBase.IsDefault(t.fontStyle, Font.DefaultFontStyle)),
     KeyEntry("justification", WidgetBase.IsDefault(t.justification, Layout.DefaultJustification)),
     KeyEntry("textLetterCase", WidgetBase.IsDefault(t.textLetterCase, None)),
     KeyEntry("lineHeightPercentage", WidgetBase.IsDefault(t.lineHeightPercentage, 0.0)),
     KeyEntry("textHorizontalAlignment", WidgetBase.IsDefault(t.textHorizontalAlignment, Font.DefaultHorizontalAlignment)),
     KeyEntry("textVerticalAlignment", WidgetBase.IsDefault(t.textVerticalAlignment, Font.DefaultVerticalAlignment)),
     KeyEntry("textOverflowPolicy", WidgetBase.IsDefault(t.textOverflowPolicy, Font.DefaultOverflowPolicy)),
     KeyEntry("contentHAlign", WidgetBase.IsDefault(t.contentHAlign, Layout.DefaultHorizontalAlign)),
     KeyEntry("contentVAlign", WidgetBase.IsDefault(t.contentVAlign, Layout.DefaultVerticalAlign)),
     KeyEntry("scrollDelay", WidgetBase.IsDefault(t.scrollDelay, WidgetBase.DefaultScrollDelay)),
     KeyEntry("scrollTextSpeed", WidgetBase.IsDefault(t.scrollTextSpeed, WidgetBase.DefaultScrollTextSpeed))]
  }

  /** Image extras carry no skip rule: all of them are always written. */
  function ImageEntries(i: ImageExtras): (r: seq<KeyEntry>)
    ensures |r| == 14
    ensures forall i, j | 0 <= i < j < |r| :: r[i].key != r[j].key
  {
    [KeyEntry("useExternalDynamicTexture", false), KeyEntry("externalDynamicTexture", false),
     KeyEntry("useNineSliceScale", false), KeyEntry("nineSliceScale", false),
     KeyEntry("mirrorType", false), KeyEntry("tileType", false),
     KeyEntry("horizontalTileCrop", false), KeyEntry("verticalTileCrop", false),
     KeyEntry("textureAtlas", false), KeyEntry("texturePart", false),
     KeyEntry("contentHAlign", false), KeyEntry("contentVAlign", false),
     KeyEntry("tileHAlign", false), KeyEntry("tileVAlign", false)]
  }

  /** Field entries of a compound or leaf widget, common fields first. */
  function FieldEntries(w: Widget): seq<KeyEntry> {
    match w
    case inkMultiChildren(_) => []
    case Compound(_, node) => CompoundEntries(node)
    case Leaf(kind, leaf) =>
      LeafEntries(leaf) +
      (match kind
       case inkTextWidget(t) => TextEntries(t)
       case inkImageWidget(i) => ImageEntries(i)
       case _ => [])
  }

  /** The keys a compound writes: each field appears exactly when it differs from its default. */
  lemma CompoundSkipsDefaults(f: CompoundFields)
    ensures "children" in Written(CompoundEntries(f)) <==> f.children != DefaultChildren
    ensures "name" in Written(CompoundEntries(f)) <==> f.name != DefaultName
    ensures "childOrder" in Written(CompoundEntries(f)) <==> f.childOrder != Layout.DefaultChildOrder
    ensures "childMargin" in Written(CompoundEntries(f)) <==> f.childMargin != Layout.DefaultMargin
  {
    var e := CompoundEntries(f);
    KeyWritten(e, 0);
    KeyWritten(e, 1);
    KeyWritten(e, 2);
    KeyWritten(e, 3);
  }

  /** A pivot at the origin is written, since the pivot's default is the centre; a centred pivot is not. */
  lemma OriginPivotIsWritten(f: LeafFields)
    ensures "renderTransformPivot" in Written(LeafEntries(f)) <==> f.renderTransformPivot != Vector2(0.5, 0.5)
  {
    KeyWritten(LeafEntries(f), 3);
  }

  /**
   * The localisation string is dropped for `None`, `ID(0)` and `Value("")`
   * only: `Value("0")` is written, although it then serialises as none.
   */
  lemma LocalizationStringSkipRule(t: TextExtras)
    ensures "localizationString" in Written(TextEntries(t)) <==>
      t.localizationString.value !in {None, Some(ID(0)), Some(Value(""))}
    ensures t.localizationString == LocalizationString(Some(Value("0"))) ==>
      "localizationString" in Written(TextEntries(t)) && SerializeLocalizationString(t.localizationString) == SerNone
  {
    KeyWritten(TextEntries(t), 0);
    DefaultLocalizationStringsSerializeAsNone(t.localizationString);
    if t.localizationString == LocalizationString(Some(Value("0"))) {
      StringZeroIsNotDefaultButSerializesAsNone();
    }
  }

  /** The scroll settings are dropped only at 30 and 0.2, not at zero. */
  lemma ScrollDefaults(t: TextExtras)
    ensures "scrollDelay" in Written(TextEntries(t)) <==> t.scrollDelay != 30
    ensures "scrollTextSpeed" in Written(TextEntries(t)) <==> t.scrollTextSpeed != 0.2
  {
    KeyWritten(TextEntries(t), 12);
    KeyWritten(TextEntries(t), 13);
  }

  /** An image widget always writes its fourteen extras. */
  lemma ImageExtrasAlwaysWritten(i: ImageExtras)
    ensures |Written(ImageEntries(i))| == 14
  {
  }

  // ----- serialising the children wrapper -----

  /** `inkMultiChildren` serialises as a sequence of its children's data, handles dropped. */
  function MultiChildrenSerialized(m: MultiChildren, serializeWidget: Widget -> Serialized): (r: Serialized)
    ensures r.SerSeq? && |r.elements| == |m.children|
    ensures forall k :: 0 <= k < |m.children| ==> r.elements[k] == serializeWidget(m.children[k].data)
  {
    SerSeq(seq(|m.children|, k requires 0 <= k < |m.children| => SerializeWrapper(m.children[k], serializeWidget)))
  }

  /** `Serialize for inkMultiChildren`: open a sequence of the children's length and feed each child in turn. */
  method SerializeMultiChildren(m: MultiChildren, serializeWidget: Widget -> Serialized) returns (r: Serialized)
    ensures r == MultiChildrenSerialized(m, serializeWidget)
  {
    var elements: seq<Serialized> := [];
    for i := 0 to |m.children|
      invariant |elements| == i
      invariant forall k :: 0 <= k < i ==> elements[k] == SerializeWrapper(m.children[k], serializeWidget)
    {
      elements := elements + [SerializeWrapper(m.children[i], serializeWidget)];
    }
    r := SerSeq(elements);
  }

  /** Children lists that differ only in handle ids serialise alike. */
  lemma MultiChildrenSerializationDropsHandles(a: MultiChildren, b: MultiChildren, serializeWidget: Widget -> Serialized)
    requires |a.children| == |b.children|
    requires forall k :: 0 <= k < |a.children| ==> a.children[k].data == b.children[k].data
    ensures MultiChildrenSerialized(a, serializeWidget) == MultiChildrenSerialized(b, serializeWidget)
  {
    var ra, rb := MultiChildrenSerialized(a, serializeWidget), MultiChildrenSerialized(b, serializeWidget);
    assert ra.elements == rb.elements;
  }
}
