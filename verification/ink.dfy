/**
 * Shared value types of the WolvenKit JSON exports (crates/types/src/ink/mod.rs):
 * names, resource paths, the export file envelope, vectors and colours,
 * handle-wrapped values, localisation keys, and how they serialise.
 *
 * Serialisation targets serde's data model, recorded as a `Serialized` value
 * rather than as JSON text.
 */
module Ink {
  import opened Wrappers
  import opened Numeric
  import Text

  /** A value in serde's data model, as a `Serialize` impl hands it to the serializer. */
  datatype Serialized =
    | SerStr(s: string)
    | SerU32(n: u32)
    | SerF32(x: real)
    | SerBool(b: bool)
    | SerNone
    | SerSome(inner: Serialized)
    | SerSeq(elements: seq<Serialized>)
    | SerStruct(structName: string, fields: seq<SerField>)

  datatype SerField = SerField(key: string, value: Serialized)

  /** A game name: `$type`, `$storage` and `$value`. */
  datatype Name = Name(type_: string, storage: string, value: string)

  const DefaultName: Name := Name("", "", "")

  /** `Name::as_str`. */
  function AsStr(n: Name): string {
    n.value
  }

  /** A name serialises to its `$value` string alone. */
  function SerializeName(n: Name): (r: Serialized)
    ensures r == SerStr(AsStr(n))
  {
    SerStr(n.value)
  }

  /** `$type` and `$storage` never reach the output: names with the same `$value` serialise alike. */
  lemma NameSerializationKeepsOnlyValue(a: Name, b: Name)
    ensures SerializeName(a) == SerializeName(b) <==> a.value == b.value
  {
  }

  /** A resource path; `$storage` has the single variant "string". */
  datatype ResourcePath = ResourcePath(value: string)

  /** `DepotPath`: only the `ResourcePath` variant exists. */
  datatype DepotPath = DepotResourcePath(path: ResourcePath)

  const DefaultDepotPath: DepotPath := DepotResourcePath(ResourcePath(""))

  function SerializeDepotPath(d: DepotPath): Serialized {
    SerStr(d.path.value)
  }

  /** The export file envelope. */
  datatype Header = Header(wolvenKitVersion: string, wKitJsonVersion: string, gameVersion: nat,
                           exportedDateTime: string, dataType: string, archiveFileName: string)

  datatype Data<T> = Data(version: nat, buildVersion: nat, rootChunk: T)

  datatype File<T> = File(header: Header, data: Data<T>)

  /** `File::resource`: the root chunk, taken out of the envelope unchanged. */
  function Resource<T>(f: File<T>): T {
    f.data.rootChunk
  }

  lemma ResourceIgnoresEnvelope<T>(f: File<T>, g: File<T>)
    requires f.data.rootChunk == g.data.rootChunk
    ensures Resource(f) == Resource(g)
  {
  }

  datatype Vector2 = Vector2(x: real, y: real)

  const DefaultVector2: Vector2 := Vector2(0.0, 0.0)

  function SerializeVector2(v: Vector2): Serialized {
    SerStruct("Vector2", [SerField("X", SerF32(v.x)), SerField("Y", SerF32(v.y))])
  }

  datatype HDRColor = HDRColor(alpha: real, blue: real, green: real, red: real)

  function SerializeHDRColor(c: HDRColor): Serialized {
    SerStruct("HDRColor", [SerField("alpha", SerF32(c.alpha)), SerField("blue", SerF32(c.blue)),
                           SerField("green", SerF32(c.green)), SerField("red", SerF32(c.red))])
  }

  type HandleId = u32

  /** A value together with the handle id that identifies it in the export graph. */
  datatype InkWrapper<T> = InkWrapper(handleId: HandleId, data: T)

  /** `PartialEq for InkWrapper`: the handle ids and the data both agree. */
  predicate WrapperEq<T(==)>(a: InkWrapper<T>, b: InkWrapper<T>)
    ensures WrapperEq(a, b) <==> a == b
  {
    a.handleId == b.handleId && a.data == b.data
  }

  /** A wrapper serialises as its data alone. */
  function SerializeWrapper<T>(w: InkWrapper<T>, serializeData: T -> Serialized): Serialized {
    serializeData(w.data)
  }

  /** The handle id never reaches the output. */
  lemma WrapperSerializationDropsHandle<T>(a: InkWrapper<T>, b: InkWrapper<T>, serializeData: T -> Serialized)
    requires a.data == b.data
    ensures SerializeWrapper(a, serializeData) == SerializeWrapper(b, serializeData)
  {
  }

  /** `CName`: a plain string. */
  datatype CName = CName(value: string)

  /** A localisation key: a numeric id or a literal string. */
  datatype LocKey = ID(id: u32) | Value(text: string)

  const DefaultLocKey: LocKey := ID(0)

  /** Untagged: an id is written as a bare number and a string as a bare string. */
  function SerializeLocKey(k: LocKey): (r: Serialized)
    ensures r.SerU32? || r.SerStr?
    ensures r.SerU32? <==> k.ID?
  {
    match k
    case ID(n) => SerU32(n)
    case Value(s) => SerStr(s)
  }

  /**
   * `PartialEq for LocKey`: same-variant keys compare their contents; an id
   * and a string are equal when the string is the id's decimal rendering.
   */
  predicate LocKeyEq(a: LocKey, b: LocKey)
    ensures a == b ==> LocKeyEq(a, b)
    ensures a.ID? == b.ID? ==> (LocKeyEq(a, b) <==> a == b)
  {
    match (a, b)
    case (ID(m), ID(n)) => m == n
    case (Value(s), Value(t)) => s == t
    case (ID(m), Value(t)) => Text.Decimal(m) == t
    case (Value(s), ID(n)) => s == Text.Decimal(n)
  }

  lemma LocKeyEqAcrossVariants(n: u32, s: string)
    ensures LocKeyEq(ID(n), Value(s)) <==> s == Text.Decimal(n)
    ensures LocKeyEq(Value(s), ID(n)) <==> s == Text.Decimal(n)
  {
  }

  /** Despite the cross-variant case, key equality is an equivalence relation. */
  lemma LocKeyEqIsEquivalence(a: LocKey, b: LocKey, c: LocKey)
    ensures LocKeyEq(a, a)
    ensures LocKeyEq(a, b) ==> LocKeyEq(b, a)
    ensures LocKeyEq(a, b) && LocKeyEq(b, c) ==> LocKeyEq(a, c)
  {
    if a.ID? && b.Value? && c.ID? {
      Text.DecimalInjective(a.id, c.id);
    }
  }

  /** The keys equal to the default `ID(0)` are `ID(0)` itself and the string "0". */
  lemma EqualToDefaultLocKey(k: LocKey)
    ensures LocKeyEq(k, DefaultLocKey) <==> k == ID(0) || k == Value("0")
  {
    assert Text.Decimal(0) == "0";
  }

  /** No id equals the empty string. */
  lemma NoIdEqualsEmptyString(k: LocKey)
    ensures LocKeyEq(k, Value("")) <==> k == Value("")
  {
  }

  datatype LocalizationString = LocalizationString(value: Option<LocKey>)

  const DefaultLocalizationString: LocalizationString := LocalizationString(None)

  /**
   * `Serialize for LocalizationString`: the key, unless it is absent or equal
   * (by `LocKeyEq`) to the default key, to `Value("")` or to `ID(0)`.
   */
  function SerializeLocalizationString(l: LocalizationString): (r: Serialized)
    ensures r == SerNone || (l.value.Some? && r == SerSome(SerializeLocKey(l.value.value)))
    ensures l.value.None? ==> r == SerNone
  {
    match l.value
    case Some(x) =>
      if !LocKeyEq(x, DefaultLocKey) && !LocKeyEq(x, Value("")) && !LocKeyEq(x, ID(0))
      then SerSome(SerializeLocKey(x))
      else SerNone
    case None => SerNone
  }

  /** `is_any_default_localization_string`. */
  predicate IsAnyDefaultLocalizationString(l: LocalizationString) {
    match l.value
    case None => true
    case Some(ID(n)) => n == 0
    case Some(Value(s)) => s == ""
  }

  /** Exactly four localisation strings serialise as none. */
  lemma SerializedAsNone(l: LocalizationString)
    ensures SerializeLocalizationString(l) == SerNone <==>
      l.value in {None, Some(ID(0)), Some(Value("")), Some(Value("0"))}
  {
    if l.value.Some? {
      EqualToDefaultLocKey(l.value.value);
      NoIdEqualsEmptyString(l.value.value);
    }
  }

  /**
   * Every localisation string the default test accepts serialises as none,
   * but not the other way round: `Value("0")` serialises as none while the
   * test rejects it.
   */
  lemma DefaultLocalizationStringsSerializeAsNone(l: LocalizationString)
    ensures IsAnyDefaultLocalizationString(l) ==> SerializeLocalizationString(l) == SerNone
    ensures IsAnyDefaultLocalizationString(l) <==> l.value in {None, Some(ID(0)), Some(Value(""))}
  {
    SerializedAsNone(l);
  }

  lemma StringZeroIsNotDefaultButSerializesAsNone()
    ensures !IsAnyDefaultLocalizationString(LocalizationString(Some(Value("0"))))
    ensures SerializeLocalizationString(LocalizationString(Some(Value("0")))) == SerNone
  {
    SerializedAsNone(LocalizationString(Some(Value("0"))));
  }
}
