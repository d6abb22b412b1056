/**
 * Layout descriptors (src/ink/widget/layout.rs): anchor and alignment enums,
 * margins, transforms and the widget layout, with their defaults, `NAME`
 * constants and the `reds_value` the derive macro generates for them.
 */
module Layout {
  import opened Wrappers
  import opened Ink
  import Reds
  import WidgetBase
  import Text

  datatype inkEAnchor =
    | TopLeft | TopCenter | TopRight | CenterLeft | Centered | CenterRight
    | BottomLeft | BottomCenter | BottomRight
    | TopFillHorizontaly | CenterFillHorizontaly | BottomFillHorizontaly
    | LeftFillVerticaly | CenterFillVerticaly | RightFillVerticaly | Fill
  {
    function Discriminant(): nat {
      match this
      case TopLeft => 0 case TopCenter => 1 case TopRight => 2 case CenterLeft => 3
      case Centered => 4 case CenterRight => 5 case BottomLeft => 6 case BottomCenter => 7
      case BottomRight => 8 case TopFillHorizontaly => 9 case CenterFillHorizontaly => 10
      case BottomFillHorizontaly => 11 case LeftFillVerticaly => 12 case CenterFillVerticaly => 13
      case RightFillVerticaly => 14 case Fill => 15
    }
    function Variant(): string {
      match this
      case TopLeft => "TopLeft" case TopCenter => "TopCenter" case TopRight => "TopRight"
      case CenterLeft => "CenterLeft" case Centered => "Centered" case CenterRight => "CenterRight"
      case BottomLeft => "BottomLeft" case BottomCenter => "BottomCenter" case BottomRight => "BottomRight"
      case TopFillHorizontaly => "TopFillHorizontaly" case CenterFillHorizontaly => "CenterFillHorizontaly"
      case BottomFillHorizontaly => "BottomFillHorizontaly" case LeftFillVerticaly => "LeftFillVerticaly"
      case CenterFillVerticaly => "CenterFillVerticaly" case RightFillVerticaly => "RightFillVerticaly"
      case Fill => "Fill"
    }
    static const Declared: seq<inkEAnchor> := [inkEAnchor.TopLeft, inkEAnchor.TopCenter, inkEAnchor.TopRight, inkEAnchor.CenterLeft, inkEAnchor.Centered, inkEAnchor.CenterRight, inkEAnchor.BottomLeft, inkEAnchor.BottomCenter, inkEAnchor.BottomRight, inkEAnchor.TopFillHorizontaly, inkEAnchor.CenterFillHorizontaly, inkEAnchor.BottomFillHorizontaly, inkEAnchor.LeftFillVerticaly, inkEAnchor.CenterFillVerticaly, inkEAnchor.RightFillVerticaly, inkEAnchor.Fill]
  }

  datatype inkEHorizontalAlign = Fill | Left | Center | Right {
    function Discriminant(): nat {
      match this case Fill => 0 case Left => 1 case Center => 2 case Right => 3
    }
    function Variant(): string {
      match this case Fill => "Fill" case Left => "Left" case Center => "Center" case Right => "Right"
    }
    static const Declared: seq<inkEHorizontalAlign> := [inkEHorizontalAlign.Fill, inkEHorizontalAlign.Left, inkEHorizontalAlign.Center, inkEHorizontalAlign.Right]
  }

  datatype inkEVerticalAlign = Fill | Top | Center | Bottom {
    function Discriminant(): nat {
      match this case Fill => 0 case Top => 1 case Center => 2 case Bottom => 3
    }
    function Variant(): string {
      match this case Fill => "Fill" case Top => "Top" case Center => "Center" case Bottom => "Bottom"
    }
    static const Declared: seq<inkEVerticalAlign> := [inkEVerticalAlign.Fill, inkEVerticalAlign.Top, inkEVerticalAlign.Center, inkEVerticalAlign.Bottom]
  }

  datatype textJustificationType = Left | Center | Right {
    function Discriminant(): nat {
      match this case Left => 0 case Center => 1 case Right => 2
    }
    function Variant(): string {
      match this case Left => "Left" case Center => "Center" case Right => "Right"
    }
    static const Declared: seq<textJustificationType> := [textJustificationType.Left, textJustificationType.Center, textJustificationType.Right]
  }

  datatype inkEChildOrder = Forward | Backward {
    function Discriminant(): nat {
      match this case Forward => 0 case Backward => 1
    }
    function Variant(): string {
      match this case Forward => "Forward" case Backward => "Backward"
    }
    static const Declared: seq<inkEChildOrder> := [inkEChildOrder.Forward, inkEChildOrder.Backward]
  }

  datatype inkESizeRule = Fixed | Stretch {
    function Discriminant(): nat {
      match this case Fixed => 0 case Stretch => 1
    }
    function Variant(): string {
      match this case Fixed => "Fixed" case Stretch => "Stretch"
    }
    static const Declared: seq<inkESizeRule> := [inkESizeRule.Fixed, inkESizeRule.Stretch]
  }

  /** Every layout enum lists its variants with discriminants 0, 1, … in declaration order, and lists them all. */
  lemma AnchorDiscriminants()
    ensures forall i :: 0 <= i < |inkEAnchor.Declared| ==> inkEAnchor.Declared[i].Discriminant() == i
    ensures forall a: inkEAnchor :: inkEAnchor.Declared[a.Discriminant()] == a
  {
  }

  lemma HorizontalAlignDiscriminants()
    ensures forall i :: 0 <= i < |inkEHorizontalAlign.Declared| ==> inkEHorizontalAlign.Declared[i].Discriminant() == i
    ensures forall a: inkEHorizontalAlign :: inkEHorizontalAlign.Declared[a.Discriminant()] == a
  {
  }

  lemma VerticalAlignDiscriminants()
    ensures forall i :: 0 <= i < |inkEVerticalAlign.Declared| ==> inkEVerticalAlign.Declared[i].Discriminant() == i
    ensures forall a: inkEVerticalAlign :: inkEVerticalAlign.Declared[a.Discriminant()] == a
  {
  }

  lemma JustificationDiscriminants()
    ensures forall i :: 0 <= i < |textJustificationType.Declared| ==> textJustificationType.Declared[i].Discriminant() == i
    ensures forall a: textJustificationType :: textJustificationType.Declared[a.Discriminant()] == a
  {
  }

  lemma ChildOrderDiscriminants()
    ensures forall i :: 0 <= i < |inkEChildOrder.Declared| ==> inkEChildOrder.Declared[i].Discriminant() == i
    ensures forall a: inkEChildOrder :: inkEChildOrder.Declared[a.Discriminant()] == a
  {
  }

  lemma SizeRuleDiscriminants()
    ensures forall i :: 0 <= i < |inkESizeRule.Declared| ==> inkESizeRule.Declared[i].Discriminant() == i
    ensures forall a: inkESizeRule :: inkESizeRule.Declared[a.Discriminant()] == a
  {
  }

  const AnchorName: string := "inkEAnchor"
  const HorizontalAlignName: string := "inkEHorizontalAlign"
  const VerticalAlignName: string := "inkEVerticalAlign"
  const TransformName: string := "inkUITransform"
  const JustificationName: string := "textJustificationType"
  const MarginName: string := "inkMargin"
  const LayoutName: string := "inkWidgetLayout"
  const ChildOrderName: string := "inkEChildOrder"
  const SizeRuleName: string := "inkESizeRule"

  const DefaultAnchor: inkEAnchor := inkEAnchor.TopLeft
  const DefaultHorizontalAlign: inkEHorizontalAlign := inkEHorizontalAlign.Fill
  const DefaultVerticalAlign: inkEVerticalAlign := inkEVerticalAlign.Fill
  const DefaultJustification: textJustificationType := textJustificationType.Left
  const DefaultChildOrder: inkEChildOrder := inkEChildOrder.Forward
  const DefaultSizeRule: inkESizeRule := inkESizeRule.Fixed

  function AnchorValue(a: inkEAnchor): (r: Option<string>)
    ensures r.None? <==> a == inkEAnchor.TopLeft
    ensures r.Some? ==> r.value == "inkEAnchor." + a.Variant()
  {
    Reds.EnumValue(AnchorName, a.Variant(), a == DefaultAnchor)
  }

  function HorizontalAlignValue(a: inkEHorizontalAlign): (r: Option<string>)
    ensures r.None? <==> a == inkEHorizontalAlign.Fill
    ensures r.Some? ==> r.value == "inkEHorizontalAlign." + a.Variant()
  {
    Reds.EnumValue(HorizontalAlignName, a.Variant(), a == DefaultHorizontalAlign)
  }

  function VerticalAlignValue(a: inkEVerticalAlign): (r: Option<string>)
    ensures r.None? <==> a == inkEVerticalAlign.Fill
    ensures r.Some? ==> r.value == "inkEVerticalAlign." + a.Variant()
  {
    Reds.EnumValue(VerticalAlignName, a.Variant(), a == DefaultVerticalAlign)
  }

  function JustificationValue(j: textJustificationType): (r: Option<string>)
    ensures r.None? <==> j == textJustificationType.Left
    ensures r.Some? ==> r.value == "textJustificationType." + j.Variant()
  {
    Reds.EnumValue(JustificationName, j.Variant(), j == DefaultJustification)
  }

  function ChildOrderValue(o: inkEChildOrder): (r: Option<string>)
    ensures r.None? <==> o == inkEChildOrder.Forward
    ensures r.Some? ==> r.value == "inkEChildOrder." + o.Variant()
  {
    Reds.EnumValue(ChildOrderName, o.Variant(), o == DefaultChildOrder)
  }

  function SizeRuleValue(s: inkESizeRule): (r: Option<string>)
    ensures r.None? <==> s == inkESizeRule.Fixed
    ensures r.Some? ==> r.value == "inkESizeRule." + s.Variant()
  {
    Reds.EnumValue(SizeRuleName, s.Variant(), s == DefaultSizeRule)
  }

  lemma ChildOrderRendering()
    ensures ChildOrderValue(inkEChildOrder.Backward) == Some("inkEChildOrder.Backward")
    ensures ChildOrderValue(inkEChildOrder.Forward) == None
  {
    assert "inkEChildOrder" + "." + "Backward" == "inkEChildOrder.Backward";
  }

  /** Distinct variants of one enum render differently: the rendering identifies the value. */
  lemma AnchorRenderingIsInjective(a: inkEAnchor, b: inkEAnchor)
    requires AnchorValue(a) == AnchorValue(b)
    ensures a == b
  {
    if a != DefaultAnchor && b != DefaultAnchor {
      var prefix := "inkEAnchor.";
      assert a.Variant() == (prefix + a.Variant())[|prefix|..];
      assert b.Variant() == (prefix + b.Variant())[|prefix|..];
    }
  }

  datatype inkUITransform = inkUITransform(translation: Vector2, scale: Vector2, shear: Vector2, rotation: real)

  const DefaultTransform: inkUITransform := inkUITransform(DefaultVector2, DefaultVector2, DefaultVector2, 0.0)

  datatype inkMargin = inkMargin(left: real, right: real, top: real, bottom: real)

  const DefaultMargin: inkMargin := inkMargin(0.0, 0.0, 0.0, 0.0)

  datatype inkWidgetLayout = inkWidgetLayout(
    padding: inkMargin, margin: inkMargin, anchorPoint: Vector2, sizeCoefficient: real,
    hAlign: inkEHorizontalAlign, vAlign: inkEVerticalAlign, anchor: inkEAnchor, sizeRule: inkESizeRule)

  const DefaultLayout: inkWidgetLayout := inkWidgetLayout(
    DefaultMargin, DefaultMargin, DefaultVector2, 0.0,
    DefaultHorizontalAlign, DefaultVerticalAlign, DefaultAnchor, DefaultSizeRule)

  /** Field table of `inkMargin`, in declaration order. */
  function MarginFields(m: inkMargin, fmt: WidgetBase.Formatters): seq<Reds.FieldValue> {
    [Reds.FieldValue("left", Reds.F32Value(m.left, fmt.fraction)),
     Reds.FieldValue("right", Reds.F32Value(m.right, fmt.fraction)),
     Reds.FieldValue("top", Reds.F32Value(m.top, fmt.fraction)),
     Reds.FieldValue("bottom", Reds.F32Value(m.bottom, fmt.fraction))]
  }

  /** Field table of `inkUITransform`, in declaration order. */
  function TransformFields(t: inkUITransform, fmt: WidgetBase.Formatters): seq<Reds.FieldValue> {
    [Reds.FieldValue("translation", fmt.vector2(t.translation)),
     Reds.FieldValue("scale", fmt.vector2(t.scale)),
     Reds.FieldValue("shear", fmt.vector2(t.shear)),
     Reds.FieldValue("rotation", Reds.F32Value(t.rotation, fmt.fraction))]
  }

  /** Field table of `inkWidgetLayout`, in declaration order. */
  function LayoutFields(l: inkWidgetLayout, fmt: WidgetBase.Formatters): seq<Reds.FieldValue> {
    [Reds.FieldValue("padding", MarginValue(l.padding, fmt)),
     Reds.FieldValue("margin", MarginValue(l.margin, fmt)),
     Reds.FieldValue("anchor_point", fmt.vector2(l.anchorPoint)),
     Reds.FieldValue("size_coefficient", Reds.F32Value(l.sizeCoefficient, fmt.fraction)),
     Reds.FieldValue("h_align", HorizontalAlignValue(l.hAlign)),
     Reds.FieldValue("v_align", VerticalAlignValue(l.vAlign)),
     Reds.FieldValue("anchor", AnchorValue(l.anchor)),
     Reds.FieldValue("size_rule", SizeRuleValue(l.sizeRule))]
  }

  function Values(fields: seq<Reds.FieldValue>): (vs: seq<Option<string>>)
    ensures |vs| == |fields|
    ensures forall k :: 0 <= k < |fields| ==> vs[k] == fields[k].value
  {
    seq(|fields|, k requires 0 <= k < |fields| => fields[k].value)
  }

  function Idents(fields: seq<Reds.FieldValue>): (ids: seq<string>)
    ensures |ids| == |fields|
    ensures forall k :: 0 <= k < |fields| ==> ids[k] == fields[k].ident
  {
    seq(|fields|, k requires 0 <= k < |fields| => fields[k].ident)
  }

  function MarginValue(m: inkMargin, fmt: WidgetBase.Formatters): (r: Option<string>)
    ensures r.None? <==> m == DefaultMargin
  {
    Reds.StructValue(MarginName, m == DefaultMargin, Values(MarginFields(m, fmt)))
  }

  function TransformValue(t: inkUITransform, fmt: WidgetBase.Formatters): (r: Option<string>)
    ensures r.None? <==> t == DefaultTransform
  {
    Reds.StructValue(TransformName, t == DefaultTransform, Values(TransformFields(t, fmt)))
  }

  function LayoutValue(l: inkWidgetLayout, fmt: WidgetBase.Formatters): (r: Option<string>)
    ensures r.None? <==> l == DefaultLayout
  {
    Reds.StructValue(LayoutName, l == DefaultLayout, Values(LayoutFields(l, fmt)))
  }

  /** Argument order of the three layout structs. */
  lemma FieldOrders(m: inkMargin, t: inkUITransform, l: inkWidgetLayout, fmt: WidgetBase.Formatters)
    ensures Idents(MarginFields(m, fmt)) == ["left", "right", "top", "bottom"]
    ensures Idents(TransformFields(t, fmt)) == ["translation", "scale", "shear", "rotation"]
    ensures Idents(LayoutFields(l, fmt))
      == ["padding", "margin", "anchor_point", "size_coefficient", "h_align", "v_align", "anchor", "size_rule"]
  {
  }

  /**
   * A layout that differs from the default only in its anchor keeps all
   * eight argument positions: default sub-structures and enums become empty
   * arguments, while the zero float and the anchor point still render.
   */
  lemma AnchorOnlyLayout(fmt: WidgetBase.Formatters)
    ensures var l := DefaultLayout.(anchor := inkEAnchor.Fill);
      LayoutValue(l, fmt) == Some("new inkWidgetLayout(" + Text.Join(
        ["", "", Reds.ArgText(fmt.vector2(DefaultVector2)), "0.", "", "", "inkEAnchor.Fill", ""], ", ") + ")")
  {
    var l := DefaultLayout.(anchor := inkEAnchor.Fill);
    assert l.anchor == inkEAnchor.Fill && DefaultLayout.anchor != inkEAnchor.Fill;
    assert l != DefaultLayout;
    AnchorOnlyLayoutArgs(fmt);
    assert "new " + LayoutName + "(" == "new inkWidgetLayout(";
    assert LayoutValue(l, fmt)
      == Some("new " + LayoutName + "(" + Text.Join(Reds.ArgTexts(Values(LayoutFields(l, fmt))), ", ") + ")");
  }

  lemma AnchorOnlyLayoutArgs(fmt: WidgetBase.Formatters)
    ensures var l := DefaultLayout.(anchor := inkEAnchor.Fill);
      Reds.ArgTexts(Values(LayoutFields(l, fmt)))
        == ["", "", Reds.ArgText(fmt.vector2(DefaultVector2)), "0.", "", "", "inkEAnchor.Fill", ""]
  {
    assert (0.0).Floor == 0 && Text.Decimal(0) == "0";
    assert Reds.F32Value(0.0, fmt.fraction) == Some("0" + ".") && "0" + "." == "0.";
    assert AnchorValue(inkEAnchor.Fill) == Some("inkEAnchor" + "." + "Fill");
    assert "inkEAnchor" + "." + "Fill" == "inkEAnchor.Fill";
  }

}
