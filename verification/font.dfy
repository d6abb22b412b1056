/**
 * Font descriptors (src/ink/widget/font.rs and
 * crates/types/src/ink/widget/font.rs): the font family resource, the font
 * style and the text enums, with defaults, `NAME` constants, derived order
 * and generated `reds_value`.
 *
 * The earlier text enums derive neither `Default` nor `RedsValue`; the
 * defaults below are those of the newer declarations.
 */
module Font {
  import Wrappers
  import opened Ink
  import Reds
  import WidgetBase

  /**
   * The font family as src/ink/widget/font.rs declares it, with its depot
   * path held as a `Name`; the crates declaration holds a `DepotPath` but
   * derives no `RedsValue`, so only this one is ever rendered.
   */
  datatype inkFontFamilyResource = inkFontFamilyResource(depotPath: Name, flags: WidgetBase.Flags)

  /** A font style: a tuple struct around one name. */
  datatype fontStyle = fontStyle(style: Name)

  const FontFamilyName: string := "inkFontFamilyResource"
  const FontStyleName: string := "fontStyle"

  const DefaultFontFamily: inkFontFamilyResource := inkFontFamilyResource(DefaultName, WidgetBase.DefaultFlags)
  const DefaultFontStyle: fontStyle := fontStyle(DefaultName)

  /** `new inkFontFamilyResource(depot_path, flags)`, none when default. */
  function FontFamilyValue(f: inkFontFamilyResource, fmt: WidgetBase.Formatters): (r: Wrappers.Option<string>)
    ensures r.None? <==> f == DefaultFontFamily
    ensures r.Some? ==>
      r.value == "new " + FontFamilyName + "(" + Reds.ArgText(fmt.name(f.depotPath)) + ", " + Reds.ArgText(fmt.flags(f.flags)) + ")"
  {
    var args := [fmt.name(f.depotPath), fmt.flags(f.flags)];
    Reds.PairArguments(FontFamilyName, f == DefaultFontFamily, args);
    Reds.StructValue(FontFamilyName, f == DefaultFontFamily, args)
  }

  /** `new fontStyle(name)`: the single positional field, none when default. */
  function FontStyleValue(s: fontStyle, fmt: WidgetBase.Formatters): (r: Wrappers.Option<string>)
    ensures r.None? <==> s == DefaultFontStyle
    ensures r.Some? ==> r.value == "new " + FontStyleName + "(" + Reds.ArgText(fmt.name(s.style)) + ")"
  {
    var r := Reds.StructValue(FontStyleName, s == DefaultFontStyle, [fmt.name(s.style)]);
    assert r.Some? ==> Reds.ArgTexts([fmt.name(s.style)]) == [Reds.ArgText(fmt.name(s.style))];
    r
  }

  datatype textLetterCase = OriginalCase | UpperCase | LowerCase {
    function Discriminant(): nat {
      match this case OriginalCase => 0 case UpperCase => 1 case LowerCase => 2
    }
    static const Declared: seq<textLetterCase> :=
      [textLetterCase.OriginalCase, textLetterCase.UpperCase, textLetterCase.LowerCase]
  }

  datatype textHorizontalAlignment = Left | Center | Right {
    function Discriminant(): nat {
      match this case Left => 0 case Center => 1 case Right => 2
    }
    static const Declared: seq<textHorizontalAlignment> :=
      [textHorizontalAlignment.Left, textHorizontalAlignment.Center, textHorizontalAlignment.Right]
  }

  datatype textVerticalAlignment = Top | Center | Bottom {
    function Discriminant(): nat {
      match this case Top => 0 case Center => 1 case Bottom => 2
    }
    static const Declared: seq<textVerticalAlignment> :=
      [textVerticalAlignment.Top, textVerticalAlignment.Center, textVerticalAlignment.Bottom]
  }

  datatype textOverflowPolicy = None | DotsEnd | DotsEndLastLine | AutoScroll | PingPongScroll | AdjustToSize {
    function Discriminant(): nat {
      match this
      case None => 0 case DotsEnd => 1 case DotsEndLastLine => 2
      case AutoScroll => 3 case PingPongScroll => 4 case AdjustToSize => 5
    }
    static const Declared: seq<textOverflowPolicy> :=
      [textOverflowPolicy.None, textOverflowPolicy.DotsEnd, textOverflowPolicy.DotsEndLastLine,
       textOverflowPolicy.AutoScroll, textOverflowPolicy.PingPongScroll, textOverflowPolicy.AdjustToSize]
  }

  const DefaultLetterCase: textLetterCase := textLetterCase.OriginalCase
  const DefaultHorizontalAlignment: textHorizontalAlignment := textHorizontalAlignment.Left
  /** Unlike the other text enums, the vertical alignment defaults to its middle variant. */
  const DefaultVerticalAlignment: textVerticalAlignment := textVerticalAlignment.Center
  const DefaultOverflowPolicy: textOverflowPolicy := textOverflowPolicy.None

  /** Discriminants run 0, 1, … in declaration order, which is the derived `Ord`; the declarations list every variant. */
  lemma TextEnumsFollowDeclaration()
    ensures forall i :: 0 <= i < |textLetterCase.Declared| ==> textLetterCase.Declared[i].Discriminant() == i
    ensures forall c: textLetterCase :: textLetterCase.Declared[c.Discriminant()] == c
    ensures forall i :: 0 <= i < |textHorizontalAlignment.Declared| ==> textHorizontalAlignment.Declared[i].Discriminant() == i
    ensures forall a: textHorizontalAlignment :: textHorizontalAlignment.Declared[a.Discriminant()] == a
    ensures forall i :: 0 <= i < |textVerticalAlignment.Declared| ==> textVerticalAlignment.Declared[i].Discriminant() == i
    ensures forall a: textVerticalAlignment :: textVerticalAlignment.Declared[a.Discriminant()] == a
    ensures forall i :: 0 <= i < |textOverflowPolicy.Declared| ==> textOverflowPolicy.Declared[i].Discriminant() == i
    ensures forall p: textOverflowPolicy :: textOverflowPolicy.Declared[p.Discriminant()] == p
  {
  }

  /** The vertical alignment default sits strictly between the other two variants. */
  lemma VerticalAlignmentDefaultIsMiddle()
    ensures textVerticalAlignment.Top.Discriminant() < DefaultVerticalAlignment.Discriminant()
      < textVerticalAlignment.Bottom.Discriminant()
    ensures DefaultLetterCase.Discriminant() == 0 && DefaultHorizontalAlignment.Discriminant() == 0
      && DefaultOverflowPolicy.Discriminant() == 0
  {
  }
}
