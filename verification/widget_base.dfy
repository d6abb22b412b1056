/**
 * Small widget-level value types and their defaults
 * (crates/types/src/ink/widget/mod.rs), and the formatters of field types
 * whose `RedsValue` impl lies outside this model.
 */
module WidgetBase {
  import opened Ink
  import opened Numeric
  import opened Wrappers

  /** Resource flags; the derived order follows the declaration. */
  datatype Flags = Default | Soft | Hard {
    function Discriminant(): nat {
      match this
      case Default => 0
      case Soft => 1
      case Hard => 2
    }
    static const Declared: seq<Flags> := [Default, Soft, Hard]
  }

  const DefaultFlags: Flags := Flags.Default

  /** Derived `Ord` on a fieldless enum compares declaration positions. */
  predicate FlagsLess(a: Flags, b: Flags) {
    a.Discriminant() < b.Discriminant()
  }

  lemma FlagsOrder()
    ensures FlagsLess(Flags.Default, Soft) && FlagsLess(Soft, Hard)
    ensures forall i :: 0 <= i < |Flags.Declared| ==> Flags.Declared[i].Discriminant() == i
    ensures forall f: Flags :: Flags.Declared[f.Discriminant()] == f
  {
  }

  /** `is_default`: equality with the type's `Default` value. */
  predicate IsDefault<T(==)>(value: T, typeDefault: T) {
    value == typeDefault
  }

  /** `Pivot::default()` is the centre of the widget, not the origin. */
  const DefaultPivot: Vector2 := Vector2(0.5, 0.5)

  /** `ScrollDelay::default()`. */
  const DefaultScrollDelay: u16 := 30

  /** `ScrollTextSpeed::default()`. */
  const DefaultScrollTextSpeed: real := 0.2

  lemma PivotDefaultIsCentre()
    ensures !IsDefault(Vector2(0.0, 0.0), DefaultPivot)
    ensures IsDefault(Vector2(0.5, 0.5), DefaultPivot)
  {
  }

  /**
   * Rendering of field types whose `RedsValue` impl lies outside this model,
   * and the decimal rendering of non-whole floats.
   */
  datatype Formatters = Formatters(
    fraction: real -> string,
    vector2: Vector2 -> Option<string>,
    name: Name -> Option<string>,
    depotPath: DepotPath -> Option<string>,
    flags: Flags -> Option<string>,
    handleId: HandleId -> Option<string>)
}
