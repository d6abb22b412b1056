/**
 * Interpolator filter kinds (src/ink/mod.rs): the kinds an animation
 * interpolator can be filtered by, the three transparency filters, and the
 * command-line spellings of the eight kinds offered on the command line.
 */
module Filters {
  import opened Wrappers

  datatype Fade = In | Out

  datatype InkAnimInterpolatorType =
    | Color
    | Size
    | Scale
    | Translation
    | Transparency(direction: Option<Fade>)
    | TextValueProgress
    | Effect
    | Anchor
    | Pivot
    | Shear
    | Rotation
    | Margin
    | Padding
    | TextReplace
    | TextOffset

  const OPACITY: InkAnimInterpolatorType := Transparency(None)
  const FADEIN: InkAnimInterpolatorType := Transparency(Some(In))
  const FADEOUT: InkAnimInterpolatorType := Transparency(Some(Out))

  /** The kinds offered on the command line, in the order they are listed. */
  const ValueVariants: seq<InkAnimInterpolatorType> :=
    [Color, Size, Scale, Translation, OPACITY, FADEIN, FADEOUT, TextValueProgress]

  /** A command-line spelling: a primary name and its aliases. */
  datatype PossibleValue = PossibleValue(name: string, aliases: seq<string>)

  function Spellings(p: PossibleValue): seq<string> {
    [p.name] + p.aliases
  }

  /** `to_possible_value`: every kind has a spelling. */
  function ToPossibleValue(t: InkAnimInterpolatorType): (r: Option<PossibleValue>)
    ensures r.Some? && |r.value.name| > 0
  {
    Some(match t
      case Color => PossibleValue("color", ["colour"])
      case Size => PossibleValue("size", ["dimension"])
      case Scale => PossibleValue("scale", [])
      case Translation => PossibleValue("translation", ["move"])
      case Transparency(None) => PossibleValue("transparency", ["opacity", "alpha"])
      case Transparency(Some(In)) => PossibleValue("fadein", ["fade-in", "appear"])
      case Transparency(Some(Out)) => PossibleValue("fadeout", ["fade-out", "disappear"])
      case TextValueProgress => PossibleValue("text-value-progress", ["progress", "tvp"])
      case Effect => PossibleValue("effect", [])
      case Anchor => PossibleValue("anchor", [])
      case Pivot => PossibleValue("pivot", [])
      case Shear => PossibleValue("shear", [])
      case Rotation => PossibleValue("rotation", [])
      case Margin => PossibleValue("margin", [])
      case Padding => PossibleValue("padding", [])
      case TextReplace => PossibleValue("text-replace", ["replace", "tr"])
      case TextOffset => PossibleValue("text-offset", ["offset", "to"]))
  }

  /** All spellings of a kind. */
  function SpellingsOf(t: InkAnimInterpolatorType): seq<string> {
    Spellings(ToPossibleValue(t).value)
  }

  /**
   * Reading a command-line word: the first listed kind one of whose
   * spellings is the word, compared exactly.
   */
  function FromWord(word: string, from: nat): (r: Option<InkAnimInterpolatorType>)
    requires from <= |ValueVariants|
    ensures r.Some? ==> r.value in ValueVariants[from..] && word in SpellingsOf(r.value)
    ensures r.None? ==> forall k | from <= k < |ValueVariants| :: word !in SpellingsOf(ValueVariants[k])
    decreases |ValueVariants| - from
  {
    if from == |ValueVariants| then None
    else if word in SpellingsOf(ValueVariants[from]) then Some(ValueVariants[from])
    else FromWord(word, from + 1)
  }

  function ParseFilter(word: string): (r: Option<InkAnimInterpolatorType>)
    ensures r.Some? ==> r.value in ValueVariants && word in SpellingsOf(r.value)
    ensures r.None? ==> forall t | t in ValueVariants :: word !in SpellingsOf(t)
  {
    FromWord(word, 0)
  }

  /** The three transparency filters are plain transparency and its two fades. */
  lemma TransparencyFilters()
    ensures OPACITY.Transparency? && OPACITY.direction.None?
    ensures FADEIN.direction == Some(In) && FADEOUT.direction == Some(Out)
    ensures OPACITY != FADEIN && FADEIN != FADEOUT && OPACITY != FADEOUT
  {
  }

  /** The listed kinds are eight distinct kinds, including all three transparency filters. */
  lemma ValueVariantsDistinct()
    ensures |ValueVariants| == 8
    ensures forall i, j | 0 <= i < j < |ValueVariants| :: ValueVariants[i] != ValueVariants[j]
    ensures forall d: Option<Fade> :: Transparency(d) in ValueVariants
  {
    forall d: Option<Fade> ensures Transparency(d) in ValueVariants {
      match d
      case None => assert ValueVariants[4] == Transparency(d);
      case Some(In) => assert ValueVariants[5] == Transparency(d);
      case Some(Out) => assert ValueVariants[6] == Transparency(d);
    }
  }

  /** The spellings of the transparency filters. */
  lemma TransparencySpellings()
    ensures SpellingsOf(OPACITY) == ["transparency", "opacity", "alpha"]
    ensures SpellingsOf(FADEIN) == ["fadein", "fade-in", "appear"]
    ensures SpellingsOf(FADEOUT) == ["fadeout", "fade-out", "disappear"]
  {
  }

  /** No word spells two different listed kinds. */
  lemma SpellingsDistinct()
    ensures forall i, j | 0 <= i < j < |ValueVariants| ::
      forall w | w in SpellingsOf(ValueVariants[i]) :: w !in SpellingsOf(ValueVariants[j])
  {
  }

  /** No kind lists a word twice. */
  lemma SpellingsUnrepeated()
    ensures forall i | 0 <= i < |ValueVariants| ::
      forall a, b | 0 <= a < b < |SpellingsOf(ValueVariants[i])| ::
        SpellingsOf(ValueVariants[i])[a] != SpellingsOf(ValueVariants[i])[b]
  {
  }

  /** Every spelling of a listed kind reads back as that kind. */
  lemma ParseSpelling(t: InkAnimInterpolatorType, word: string)
    requires t in ValueVariants && word in SpellingsOf(t)
    ensures ParseFilter(word) == Some(t)
  {
    SpellingsDistinct();
  }
}
