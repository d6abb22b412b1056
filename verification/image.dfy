/**
 * Brush descriptors (src/ink/widget/image.rs and
 * crates/types/src/ink/widget/image.rs): the texture atlas reference and the
 * mirror and tile enums, with defaults, `NAME` constants, derived order and
 * generated `reds_value`.
 */
module Image {
  import opened Wrappers
  import opened Ink
  import Reds
  import WidgetBase

  /** A texture atlas reference; it has no generated `reds_value`. */
  datatype inkTextureAtlas = inkTextureAtlas(depotPath: DepotPath, flags: WidgetBase.Flags)

  const TextureAtlasName: string := "inkTextureAtlas"

  /** The newer declaration derives `Default` from the depot path and flags defaults. */
  const DefaultTextureAtlas: inkTextureAtlas := inkTextureAtlas(DefaultDepotPath, WidgetBase.DefaultFlags)

  datatype inkBrushMirrorType = NoMirror | Horizontal | Vertical | Both {
    function Discriminant(): nat {
      match this case NoMirror => 0 case Horizontal => 1 case Vertical => 2 case Both => 3
    }
    function Variant(): string {
      match this case NoMirror => "NoMirror" case Horizontal => "Horizontal" case Vertical => "Vertical" case Both => "Both"
    }
    static const Declared: seq<inkBrushMirrorType> :=
      [inkBrushMirrorType.NoMirror, inkBrushMirrorType.Horizontal, inkBrushMirrorType.Vertical, inkBrushMirrorType.Both]
  }

  datatype inkBrushTileType = NoTile | Horizontal | Vertical | Both {
    function Discriminant(): nat {
      match this case NoTile => 0 case Horizontal => 1 case Vertical => 2 case Both => 3
    }
    function Variant(): string {
      match this case NoTile => "NoTile" case Horizontal => "Horizontal" case Vertical => "Vertical" case Both => "Both"
    }
    static const Declared: seq<inkBrushTileType> :=
      [inkBrushTileType.NoTile, inkBrushTileType.Horizontal, inkBrushTileType.Vertical, inkBrushTileType.Both]
  }

  const MirrorTypeName: string := "inkBrushMirrorType"
  const TileTypeName: string := "inkBrushTileType"
  const DefaultMirrorType: inkBrushMirrorType := inkBrushMirrorType.NoMirror
  const DefaultTileType: inkBrushTileType := inkBrushTileType.NoTile

  /** Derived `Ord` of the newer declarations. */
  predicate MirrorLess(a: inkBrushMirrorType, b: inkBrushMirrorType) {
    a.Discriminant() < b.Discriminant()
  }

  predicate TileLess(a: inkBrushTileType, b: inkBrushTileType) {
    a.Discriminant() < b.Discriminant()
  }

  /** The derived order runs in declaration order, and the declaration lists every variant. */
  lemma BrushOrders()
    ensures MirrorLess(inkBrushMirrorType.NoMirror, inkBrushMirrorType.Horizontal)
      && MirrorLess(inkBrushMirrorType.Horizontal, inkBrushMirrorType.Vertical)
      && MirrorLess(inkBrushMirrorType.Vertical, inkBrushMirrorType.Both)
    ensures TileLess(inkBrushTileType.NoTile, inkBrushTileType.Horizontal)
      && TileLess(inkBrushTileType.Horizontal, inkBrushTileType.Vertical)
      && TileLess(inkBrushTileType.Vertical, inkBrushTileType.Both)
    ensures forall i :: 0 <= i < |inkBrushMirrorType.Declared| ==> inkBrushMirrorType.Declared[i].Discriminant() == i
    ensures forall m: inkBrushMirrorType :: inkBrushMirrorType.Declared[m.Discriminant()] == m
    ensures forall i :: 0 <= i < |inkBrushTileType.Declared| ==> inkBrushTileType.Declared[i].Discriminant() == i
    ensures forall t: inkBrushTileType :: inkBrushTileType.Declared[t.Discriminant()] == t
  {
  }

  /** The default is the least value of the derived order. */
  lemma DefaultsAreLeast(m: inkBrushMirrorType, t: inkBrushTileType)
    ensures m == DefaultMirrorType || MirrorLess(DefaultMirrorType, m)
    ensures t == DefaultTileType || TileLess(DefaultTileType, t)
  {
  }

  function MirrorTypeValue(m: inkBrushMirrorType): (r: Option<string>)
    ensures r.None? <==> m == inkBrushMirrorType.NoMirror
    ensures r.Some? ==> r.value == "inkBrushMirrorType." + m.Variant()
  {
    Reds.EnumValue(MirrorTypeName, m.Variant(), m == DefaultMirrorType)
  }

  function TileTypeValue(t: inkBrushTileType): (r: Option<string>)
    ensures r.None? <==> t == inkBrushTileType.NoTile
    ensures r.Some? ==> r.value == "inkBrushTileType." + t.Variant()
  {
    Reds.EnumValue(TileTypeName, t.Variant(), t == DefaultTileType)
  }
}
