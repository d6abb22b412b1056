/**
 * The hand-written decoders of src/ink/conversion.rs and
 * src/ink/anim/conversion.rs: `CName` and `ResourcePath` from their
 * `$type`/`$storage`/`$value` maps, `LocKey` from a number, a string or a map,
 * and an animation `Range` from a number or a `$type`-tagged map.
 *
 * The input is the value a deserializer hands to the visitor, one variant per
 * `visit_*` method; a map is its list of entries in document order.
 */
module Codec {
  import opened Wrappers
  import opened Numeric
  import opened Ink
  import Text
  import Anim

  /// The visitor's input

  datatype Json =
    | U8(u8: u8)
    | U16(u16: u16)
    | U32(u32: u32)
    | U64(u64: u64)
    | U128(u128: u128)
    | I8(i8: i8)
    | I16(i16: i16)
    | I32(i32: i32)
    | I64(i64: i64)
    | I128(i128: i128)
    | F32(f32: real)
    | F64(f64: real)
    | Str(s: string)
    | Map(entries: seq<Entry>)
    | Other   // booleans, unit, sequences: no visitor here accepts them

  datatype Entry = Entry(key: string, value: Json)

  /** The error serde reports for a visitor method that is not overridden. */
  const InvalidType: string := "invalid type"
  const InvalidMapType: string := "invalid map type"
  const InvalidMapStorage: string := "invalid map storage"
  const InvalidMapSequence: string := "invalid map sequence"

  /// `$type` / `$storage` / `$value` maps

  /** An entry that stops the map visitor at once. */
  predicate Offends(e: Entry, expectedType: string) {
    (e.key == "$type" && e.value != Str(expectedType)) ||
    (e.key == "$storage" && e.value != Str("string")) ||
    (e.key == "$value" && !e.value.Str?)
  }

  function OffenceMessage(e: Entry, expectedType: string): string
    requires Offends(e, expectedType)
  {
    if !e.value.Str? then InvalidType
    else if e.key == "$type" then InvalidMapType
    else InvalidMapStorage
  }

  /** The position of the first offending entry, if any. */
  function FirstOffence(entries: seq<Entry>, expectedType: string): (r: Option<nat>)
    ensures r.Some? ==>
      (r.value < |entries| && Offends(entries[r.value], expectedType) &&
       forall j | 0 <= j < r.value :: !Offends(entries[j], expectedType))
    ensures r.None? ==> forall j | 0 <= j < |entries| :: !Offends(entries[j], expectedType)
  {
    if |entries| == 0 then None
    else if Offends(entries[0], expectedType) then Some(0)
    else match FirstOffence(entries[1..], expectedType)
      case None => None
      case Some(i) => Some(i + 1)
  }

  predicate HasKey(entries: seq<Entry>, key: string) {
    exists j | 0 <= j < |entries| :: entries[j].key == key
  }

  /** The string of the last `$value` entry; "" when there is none. */
  function LastValue(entries: seq<Entry>): string {
    if |entries| == 0 then ""
    else
      var last := entries[|entries| - 1];
      if last.key == "$value" && last.value.Str? then last.value.s else LastValue(entries[..|entries| - 1])
  }

  /**
   * What the `CName` and `ResourcePath` map visitors compute: the first
   * offending entry decides the error; otherwise all three keys must have
   * been seen, and the last `$value` wins.
   */
  function TypedMap(entries: seq<Entry>, expectedType: string): (r: Result<string>)
    ensures r.Ok? ==> r.value == LastValue(entries) && HasKey(entries, "$value")
    ensures r.Err? ==> r.error in {InvalidType, InvalidMapType, InvalidMapStorage, InvalidMapSequence}
  {
    match FirstOffence(entries, expectedType)
    case Some(i) => Err(OffenceMessage(entries[i], expectedType))
    case None =>
      if HasKey(entries, "$type") && HasKey(entries, "$storage") && HasKey(entries, "$value")
      then Ok(LastValue(entries))
      else Err(InvalidMapSequence)
  }

  /** The `visit_map` loop shared by the `CName` and `ResourcePath` decoders. */
  method VisitTypedMap(entries: seq<Entry>, expectedType: string) returns (r: Result<string>)
    ensures r == TypedMap(entries, expectedType)
  {
    var typeOk, storageOk, valueOk := false, false, false;
    var value: string := "";
    for i := 0 to |entries|
      invariant forall j | 0 <= j < i :: !Offends(entries[j], expectedType)
      invariant typeOk == HasKey(entries[..i], "$type")
      invariant storageOk == HasKey(entries[..i], "$storage")
      invariant valueOk == HasKey(entries[..i], "$value")
      invariant value == LastValue(entries[..i])
    {
      var e := entries[i];
      assert entries[..i + 1][..i] == entries[..i];
      if Offends(e, expectedType) {
        FirstOffenceAt(entries, expectedType, i);
      }
      if e.key == "$type" {
        if !e.value.Str? {
          return Err(InvalidType);
        }
        if e.value.s != expectedType {
          return Err(InvalidMapType);
        }
        typeOk := true;
      }
      if e.key == "$storage" {
        if !e.value.Str? {
          return Err(InvalidType);
        }
        if e.value.s != "string" {
          return Err(InvalidMapStorage);
        }
        storageOk := true;
      }
      if e.key == "$value" {
        if !e.value.Str? {
          return Err(InvalidType);
        }
        value := e.value.s;
        valueOk := true;
      }
      HasKeyStep(entries, i, "$type");
      HasKeyStep(entries, i, "$storage");
      HasKeyStep(entries, i, "$value");
    }
    assert entries[..|entries|] == entries;
    if typeOk && storageOk && valueOk {
      return Ok(value);
    }
    return Err(InvalidMapSequence);
  }

  lemma FirstOffenceAt(entries: seq<Entry>, expectedType: string, i: nat)
    requires i < |entries| && Offends(entries[i], expectedType)
    requires forall j | 0 <= j < i :: !Offends(entries[j], expectedType)
    ensures FirstOffence(entries, expectedType) == Some(i)
  {
  }

  lemma HasKeyStep(entries: seq<Entry>, i: nat, key: string)
    requires i < |entries|
    ensures HasKey(entries[..i + 1], key) <==> HasKey(entries[..i], key) || entries[i].key == key
  {
    if HasKey(entries[..i + 1], key) && entries[i].key != key {
      var j :| 0 <= j < i + 1 && entries[..i + 1][j].key == key;
      assert entries[..i][j].key == key;
    }
    if HasKey(entries[..i], key) {
      var j :| 0 <= j < i && entries[..i][j].key == key;
      assert entries[..i + 1][j].key == key;
    }
    if entries[i].key == key {
      assert entries[..i + 1][i].key == key;
    }
  }

  /** `deserialize_cname_from_format`. */
  function DecodeCName(entries: seq<Entry>): (r: Result<string>)
    ensures r.Ok? ==> forall j | 0 <= j < |entries| :: !Offends(entries[j], "CName")
    ensures r.Ok? ==> r.value == LastValue(entries)
  {
    TypedMap(entries, "CName")
  }

  /** `deserialize_resourcepath_from_format`: the same visitor, expecting `ResourcePath`. */
  function DecodeResourcePath(entries: seq<Entry>): (r: Result<ResourcePath>)
    ensures r.Ok? <==> TypedMap(entries, "ResourcePath").Ok?
    ensures r.Ok? ==> r.value == ResourcePath(TypedMap(entries, "ResourcePath").value)
    ensures r.Err? ==> r.error == TypedMap(entries, "ResourcePath").error
  {
    match TypedMap(entries, "ResourcePath")
    case Ok(s) => Ok(ResourcePath(s))
    case Err(e) => Err(e)
  }

  /**
   * The decoder succeeds exactly when no entry offends and all three keys
   * were seen; it then returns the last `$value`. A missing key is the
   * "invalid map sequence" error.
   */
  lemma TypedMapOutcome(entries: seq<Entry>, expectedType: string)
    ensures TypedMap(entries, expectedType).Ok? <==>
      (forall j | 0 <= j < |entries| :: !Offends(entries[j], expectedType)) &&
      HasKey(entries, "$type") && HasKey(entries, "$storage") && HasKey(entries, "$value")
    ensures TypedMap(entries, expectedType).Ok? ==> TypedMap(entries, expectedType).value == LastValue(entries)
    ensures ((forall j | 0 <= j < |entries| :: !Offends(entries[j], expectedType)) &&
             !(HasKey(entries, "$type") && HasKey(entries, "$storage") && HasKey(entries, "$value"))) ==>
      TypedMap(entries, expectedType) == Err(InvalidMapSequence)
  {
  }

  /** A wrong `$type` or `$storage` fails at once: nothing after the first offending entry matters. */
  lemma {:induction false} FailsAtOnce(entries: seq<Entry>, expectedType: string, k: nat, rest: seq<Entry>)
    requires FirstOffence(entries, expectedType) == Some(k)
    ensures TypedMap(entries[..k + 1] + rest, expectedType) == TypedMap(entries, expectedType)
  {
    var cut := entries[..k + 1] + rest;
    assert cut[k] == entries[k];
    forall j | 0 <= j < k ensures !Offends(cut[j], expectedType) {
      assert cut[j] == entries[j];
    }
    FirstOffenceAt(cut, expectedType, k);
  }

  /** The entries a `Name` is written with. */
  function NameEntries(n: Name): seq<Entry> {
    [Entry("$type", Str(n.type_)), Entry("$storage", Str(n.storage)), Entry("$value", Str(n.value))]
  }

  /** A name written with `$type` "CName" and `$storage` "string" decodes to its `$value`; any other is refused. */
  lemma CNameRoundTrip(n: Name)
    ensures DecodeCName(NameEntries(n)) ==
      if n.type_ != "CName" then Err(InvalidMapType)
      else if n.storage != "string" then Err(InvalidMapStorage)
      else Ok(AsStr(n))
  {
    var es := NameEntries(n);
    if n.type_ != "CName" {
      FirstOffenceAt(es, "CName", 0);
    } else if n.storage != "string" {
      FirstOffenceAt(es, "CName", 1);
    } else {
      assert es[0].key == "$type" && es[1].key == "$storage" && es[2].key == "$value";
      assert es[..2][..1] == [es[0]] && es[..2] == [es[0], es[1]];
      assert LastValue(es) == n.value;
    }
  }

  /** A resource path written in full decodes to itself. */
  lemma ResourcePathRoundTrip(p: ResourcePath)
    ensures DecodeResourcePath([Entry("$type", Str("ResourcePath")), Entry("$storage", Str("string")), Entry("$value", Str(p.value))]) == Ok(p)
  {
    var es := [Entry("$type", Str("ResourcePath")), Entry("$storage", Str("string")), Entry("$value", Str(p.value))];
    assert es[0].key == "$type" && es[1].key == "$storage" && es[2].key == "$value";
    assert LastValue(es) == p.value;
  }

  /// `LocKey`

  /** The largest numeric id, five digits. */
  const IdMax: nat := 99999
  const GreaterThanFiveDigits: string := "greater than 5 digits"
  const NegativeDigit: string := "negative digit"
  const LocKeyPrefix: string := "LocKey#"

  /** `visit_u32`: ids above five digits are refused. */
  function LocKeyFromU32(v: u32): (r: Result<Option<LocKey>>)
    ensures r.Ok? <==> v <= IdMax
    ensures r.Ok? ==> r.value == Some(ID(v))
  {
    if v > IdMax then Err(GreaterThanFiveDigits) else Ok(Some(ID(v)))
  }

  /** The number of bytes `c` takes in UTF-8. */
  function Utf8Width(c: char): (w: nat)
    ensures 1 <= w <= 4
    ensures c as int < 0x80 <==> w == 1
  {
    if c as int < 0x80 then 1 else if c as int < 0x800 then 2 else if c as int < 0x1_0000 then 3 else 4
  }

  /** `str::len`: the length of `s` in UTF-8 bytes. */
  function Utf8Len(s: string): (n: nat)
    ensures n >= |s|
  {
    if |s| == 0 then 0 else Utf8Width(s[0]) + Utf8Len(s[1..])
  }

  /** The number of leading characters that fill exactly `b` bytes, if byte `b` is a character boundary. */
  function BoundaryAt(s: string, b: nat): (r: Option<nat>)
    ensures r.Some? ==> r.value <= |s|
  {
    if b == 0 then Some(0)
    else if |s| == 0 || Utf8Width(s[0]) > b then None
    else match BoundaryAt(s[1..], b - Utf8Width(s[0]))
      case None => None
      case Some(k) =>
        assert s[..k + 1][1..] == s[1..][..k];
        Some(k + 1)
  }

  /** Every prefix of whole characters ends on a boundary, and that boundary is found. */
  lemma {:induction false} BoundaryAtFinds(s: string, k: nat)
    requires k <= |s|
    ensures BoundaryAt(s, Utf8Len(s[..k])) == Some(k)
  {
    if k > 0 {
      assert s[..k][1..] == s[1..][..k - 1];
      BoundaryAtFinds(s[1..], k - 1);
    }
  }

  predicate Ascii(s: string) {
    forall i :: 0 <= i < |s| ==> s[i] as int < 0x80
  }

  /** An ASCII string takes one byte per character. */
  lemma {:induction false} AsciiLength(s: string)
    requires Ascii(s)
    ensures Utf8Len(s) == |s|
  {
    if |s| > 0 {
      AsciiLength(s[1..]);
    }
  }

  /** After an ASCII prefix, a boundary is found exactly where it is found in the rest, shifted. */
  lemma {:induction false} BoundaryAfterAscii(a: string, rest: string, m: nat)
    requires Ascii(a) && m > 0
    ensures BoundaryAt(a + rest, |a| + m) ==
      match BoundaryAt(rest, m) case None => None case Some(k) => Some(|a| + k)
  {
    if |a| == 0 {
      assert a + rest == rest;
    } else {
      assert (a + rest)[0] == a[0] && (a + rest)[1..] == a[1..] + rest;
      BoundaryAfterAscii(a[1..], rest, m);
    }
  }

  /** The message `&v[0..7]` panics with when byte 7 falls inside a character. */
  const NotCharBoundary: string := "byte index 7 is not a char boundary"

  function UnexpectedId(suffix: string): string {
    "unexpected loc key ID: " + suffix
  }

  /** The suffix after `LocKey#`, parsed as a `u32`. */
  function IdFromSuffix(suffix: string): Result<Option<LocKey>> {
    match Text.ParseUnsigned(suffix, TwoTo32 - 1)
    case None => Err(UnexpectedId(suffix))
    case Some(n) => Ok(Some(ID(n)))
  }

  /**
   * `visit_str` as written: a 12-byte string is sliced at byte 7 before its
   * first seven bytes are compared with `LocKey#`, which panics when byte 7
   * is inside a multi-byte character.
   */
  function LocKeyFromStrAsWritten(v: string): (r: Outcome<Result<Option<LocKey>>>)
    ensures r.Panics? ==> r.message == NotCharBoundary && Utf8Len(v) == 12
    ensures r.Returns? && r.value.Ok? ==> r.value.value.Some?
    ensures r.Returns? && r.value.Ok? && r.value.value.value.Value? ==> r.value.value.value.text == v
  {
    if |v| == 0 then Returns(Ok(Some(Value(""))))
    else if Utf8Len(v) == 7 + 5 then
      match BoundaryAt(v, 7)
      case None => Panics(NotCharBoundary)
      case Some(k) => Returns(SlicedPrefix(v, k))
    else Returns(Ok(Some(Value(v))))
  }

  /** The comparison of the first `k` characters, cut at a boundary, with `LocKey#`. */
  function SlicedPrefix(v: string, k: nat): Result<Option<LocKey>>
    requires k <= |v|
  {
    if v[..k] == LocKeyPrefix then IdFromSuffix(v[k..]) else Ok(Some(Value(v)))
  }

  /** `visit_str` with the prefix compared character by character, so that no slice can fall inside a character. */
  function LocKeyFromStr(v: string): (r: Result<Option<LocKey>>)
    ensures |v| == 0 ==> r == Ok(Some(Value("")))
    ensures r.Ok? && r.value.Some? && r.value.value.ID? ==>
      Utf8Len(v) == 12 && |v| >= 7 && v[..7] == LocKeyPrefix && Text.ParseUnsigned(v[7..], TwoTo32 - 1) == Some(r.value.value.id)
    ensures r.Ok? && r.value.Some? && r.value.value.Value? ==> r.value.value.text == v
    ensures r.Ok? ==> r.value.Some?
  {
    if |v| == 0 then Ok(Some(Value("")))
    else if Utf8Len(v) == 7 + 5 && |v| >= 7 && v[..7] == LocKeyPrefix then IdFromSuffix(v[7..])
    else Ok(Some(Value(v)))
  }

  /** Byte 7 of a 12-byte, non-empty string falls inside a character. */
  predicate OffBoundary(v: string) {
    |v| > 0 && Utf8Len(v) == 12 && BoundaryAt(v, 7).None?
  }

  /** The as-written decoder panics exactly on 12-byte strings whose byte 7 is inside a character. */
  lemma AsWrittenPanics(v: string)
    ensures LocKeyFromStrAsWritten(v).Panics? <==> OffBoundary(v)
  {
    if OffBoundary(v) {
      OffBoundaryPanics(v);
    } else {
      NoPanicOnBoundary(v);
    }
  }

  lemma OffBoundaryPanics(v: string)
    requires OffBoundary(v)
    ensures LocKeyFromStrAsWritten(v) == Panics(NotCharBoundary)
  {
  }

  lemma NoPanicOnBoundary(v: string)
    requires !OffBoundary(v)
    ensures LocKeyFromStrAsWritten(v).Returns?
  {
  }

  /** Wherever the as-written decoder returns, the corrected one returns the same. */
  lemma {:induction false} CorrectedAgreesWhereNoPanic(v: string)
    ensures LocKeyFromStrAsWritten(v).Returns? ==> LocKeyFromStrAsWritten(v).value == LocKeyFromStr(v)
  {
    if |v| > 0 && Utf8Len(v) == 12 && BoundaryAt(v, 7).Some? {
      var k := BoundaryAt(v, 7).value;
      if |v| >= 7 && v[..7] == LocKeyPrefix {
        AsciiLength(LocKeyPrefix);
        BoundaryAtFinds(v, 7);
      }
    }
  }

  /** "LocKey" followed by 'é' and four letters: twelve bytes, byte 7 in the middle of 'é'. */
  const SplitAccent: string := "LocKey" + "é" + "abcd"

  /** The as-written decoder panics on a plain 12-byte string; the corrected one keeps it as a string key. */
  lemma AccentPanics()
    ensures LocKeyFromStrAsWritten(SplitAccent) == Panics(NotCharBoundary)
    ensures LocKeyFromStr(SplitAccent) == Ok(Some(Value(SplitAccent)))
  {
    var tail := "é" + "abcd";
    assert SplitAccent == "LocKey" + tail;
    assert Ascii("LocKey") && Ascii("abcd");
    AsciiLength("LocKey");
    AsciiLength("abcd");
    Utf8LenAppend("é", "abcd");
    Utf8LenAppend("LocKey", tail);
    assert Utf8Len(SplitAccent) == 12;
    assert tail[0] == 'é' && Utf8Width('é') == 2;
    assert BoundaryAt(tail, 1) == None;
    BoundaryAfterAscii("LocKey", tail, 1);
    assert BoundaryAt(SplitAccent, 7) == None;
    assert SplitAccent[6] != LocKeyPrefix[6];
  }

  /** The value of a digit string is below ten to the power of its length. */
  lemma {:induction false} DigitsValueBound(d: string)
    requires Text.AllDigits(d)
    ensures Text.DigitsValue(d) < Pow10(|d|)
  {
    if |d| > 0 {
      DigitsValueBound(d[..|d| - 1]);
    }
  }

  function Pow10(n: nat): nat {
    if n == 0 then 1 else 10 * Pow10(n - 1)
  }

  /** `LocKey#` followed by five ASCII digits decodes to the id those digits spell. */
  lemma {:induction false} PrefixedIdDecodes(d: string)
    requires |d| == 5 && Text.AllDigits(d)
    ensures Text.DigitsValue(d) <= IdMax
    ensures LocKeyFromStr(LocKeyPrefix + d) == Ok(Some(ID(Text.DigitsValue(d))))
  {
    var v := LocKeyPrefix + d;
    DigitsValueBound(d);
    assert Pow10(5) == 100000;
    assert v[..7] == LocKeyPrefix && v[7..] == d;
    Utf8LenAppend(LocKeyPrefix, d);
    AsciiLength(LocKeyPrefix);
    assert Ascii(d) by {
      forall i | 0 <= i < |d| ensures d[i] as int < 0x80 {
        assert Text.IsDigit(d[i]);
      }
    }
    AsciiLength(d);
  }

  lemma {:induction false} Utf8LenAppend(a: string, b: string)
    ensures Utf8Len(a + b) == Utf8Len(a) + Utf8Len(b)
  {
    if |a| > 0 {
      assert (a + b)[1..] == a[1..] + b;
      Utf8LenAppend(a[1..], b);
    } else {
      assert a + b == b;
    }
  }

  /** The "value" entry of a `LocKey` map, decoded by `visit_str` as written; the first such entry wins. */
  function LocKeyFromMapAsWritten(entries: seq<Entry>): (r: Outcome<Result<Option<LocKey>>>)
    ensures r.Panics? ==> r.message == NotCharBoundary && HasKey(entries, "value")
    ensures r.Returns? && r.value.Ok? ==> r.value.value.Some?
  {
    if |entries| == 0 then Returns(Err(InvalidMapSequence))
    else if entries[0].key == "value" then
      (if entries[0].value.Str? then LocKeyFromStrAsWritten(entries[0].value.s) else Returns(Err(InvalidType)))
    else LocKeyFromMapAsWritten(entries[1..])
  }

  /** The same map decoding with the corrected string rule. */
  function LocKeyFromMap(entries: seq<Entry>): (r: Result<Option<LocKey>>)
    ensures r.Ok? ==> r.value.Some? && HasKey(entries, "value")
  {
    if |entries| == 0 then Err(InvalidMapSequence)
    else if entries[0].key == "value" then
      (if entries[0].value.Str? then LocKeyFromStr(entries[0].value.s) else Err(InvalidType))
    else LocKeyFromMap(entries[1..])
  }

  /** The `visit_map` loop of the `LocKey` decoder, handing the value to `visit_str` as written. */
  method VisitLocKeyMap(entries: seq<Entry>) returns (r: Outcome<Result<Option<LocKey>>>)
    ensures r == LocKeyFromMapAsWritten(entries)
  {
    for i := 0 to |entries|
      invariant LocKeyFromMapAsWritten(entries) == LocKeyFromMapAsWritten(entries[i..])
    {
      assert entries[i..][0] == entries[i] && entries[i..][1..] == entries[i + 1..];
      if entries[i].key == "value" {
        if !entries[i].value.Str? {
          return Returns(Err(InvalidType));
        }
        return LocKeyFromStrAsWritten(entries[i].value.s);
      }
    }
    return Returns(Err(InvalidMapSequence));
  }

  /** Entry `k` is the first one whose key is "value". */
  predicate FirstValueAt(entries: seq<Entry>, k: int) {
    0 <= k < |entries| && entries[k].key == "value" && forall j | 0 <= j < k :: entries[j].key != "value"
  }

  /**
   * The map is decoded by `visit_str` on its first "value" entry, panicking
   * where that does; a first "value" that is not a string is refused, and a
   * map with no "value" entry is an error.
   */
  lemma {:induction false} LocKeyMapUsesFirstValue(entries: seq<Entry>)
    ensures !HasKey(entries, "value") ==> LocKeyFromMapAsWritten(entries) == Returns(Err(InvalidMapSequence))
    ensures forall k | FirstValueAt(entries, k) && entries[k].value.Str? ::
      LocKeyFromMapAsWritten(entries) == LocKeyFromStrAsWritten(entries[k].value.s)
    ensures forall k | FirstValueAt(entries, k) && !entries[k].value.Str? ::
      LocKeyFromMapAsWritten(entries) == Returns(Err(InvalidType))
  {
    if |entries| > 0 {
      LocKeyMapUsesFirstValue(entries[1..]);
      if !HasKey(entries, "value") {
        forall j | 0 <= j < |entries| - 1 ensures entries[1..][j].key != "value" {
          assert entries[1..][j] == entries[j + 1];
        }
      }
      forall k | FirstValueAt(entries, k) && k > 0 ensures FirstValueAt(entries[1..], k - 1) {
        assert entries[1..][k - 1] == entries[k];
        forall j | 0 <= j < k - 1 ensures entries[1..][j].key != "value" {
          assert entries[1..][j] == entries[j + 1];
        }
      }
    }
  }

  /** A map that has a "value" entry has a first one. */
  lemma {:induction false} FirstValueExists(entries: seq<Entry>)
    requires HasKey(entries, "value")
    ensures exists k :: FirstValueAt(entries, k)
  {
    if entries[0].key == "value" {
      assert FirstValueAt(entries, 0);
    } else {
      var j :| 0 <= j < |entries| && entries[j].key == "value";
      assert entries[1..][j - 1] == entries[j];
      FirstValueExists(entries[1..]);
      var k :| FirstValueAt(entries[1..], k);
      assert entries[1..][k] == entries[k + 1];
      forall i | 0 <= i < k + 1 ensures entries[i].key != "value" {
        if i > 0 {
          assert entries[1..][i - 1] == entries[i];
        }
      }
      assert FirstValueAt(entries, k + 1);
    }
  }

  /** There is at most one first "value" entry. */
  lemma FirstValueUnique(entries: seq<Entry>, a: int, b: int)
    requires FirstValueAt(entries, a) && FirstValueAt(entries, b)
    ensures a == b
  {
  }

  /** The map decoder as written panics exactly when its first "value" entry is a string that `visit_str` panics on. */
  lemma MapPanics(entries: seq<Entry>)
    ensures LocKeyFromMapAsWritten(entries).Panics? <==>
      exists k | FirstValueAt(entries, k) :: entries[k].value.Str? && OffBoundary(entries[k].value.s)
  {
    LocKeyMapUsesFirstValue(entries);
    if HasKey(entries, "value") {
      FirstValueExists(entries);
      var k :| FirstValueAt(entries, k);
      forall k' | FirstValueAt(entries, k') ensures k' == k {
        FirstValueUnique(entries, k, k');
      }
      if entries[k].value.Str? {
        AsWrittenPanics(entries[k].value.s);
      }
    }
  }

  /** Wherever the map decoder as written returns, the corrected one returns the same. */
  lemma {:induction false} CorrectedMapAgreesWhereNoPanic(entries: seq<Entry>)
    ensures LocKeyFromMapAsWritten(entries).Returns? ==> LocKeyFromMapAsWritten(entries).value == LocKeyFromMap(entries)
  {
    if |entries| > 0 {
      if entries[0].key == "value" {
        if entries[0].value.Str? {
          CorrectedAgreesWhereNoPanic(entries[0].value.s);
        }
      } else {
        CorrectedMapAgreesWhereNoPanic(entries[1..]);
      }
    }
  }

  /**
   * The numeric visitors of `deserialize_lockey_from_anything`: they funnel
   * into `visit_u32` through `as u32` (a negative `i32` is refused first); the
   * visitors left at serde's default (`u8` to `visit_u64`, `i8` to
   * `visit_i64`) follow serde's forwarding, and 128-bit integers, floats and
   * every other kind of value are refused.
   */
  function LocKeyFromNumber(j: Json): (r: Result<Option<LocKey>>)
    ensures r.Ok? ==> r.value.Some? && r.value.value.ID? && r.value.value.id <= IdMax
    ensures j.I32? && j.i32 < 0 ==> r == Err(NegativeDigit)
    ensures j.Str? || j.Map? || j.U128? || j.I128? || j.F32? || j.F64? || j.Other? ==> r == Err(InvalidType)
  {
    match j
    case U8(v) => LocKeyFromU32(AsU32(v))
    case U16(v) => LocKeyFromU32(v)
    case U32(v) => LocKeyFromU32(v)
    case U64(v) => LocKeyFromU32(AsU32(v))
    case I8(v) => LocKeyFromU32(AsU32(v))
    case I16(v) => LocKeyFromU32(AsU32(v))
    case I32(v) => if v < 0 then Err(NegativeDigit) else LocKeyFromU32(v)
    case I64(v) => LocKeyFromU32(AsU32(v))
    case _ => Err(InvalidType)
  }

  /** `deserialize_lockey_from_anything` as written: strings and maps go through `visit_str`, which may panic. */
  function DecodeLocKeyAsWritten(j: Json): (r: Outcome<Result<Option<LocKey>>>)
    ensures r.Panics? ==> r.message == NotCharBoundary && (j.Str? || j.Map?)
    ensures r.Returns? && r.value.Ok? ==> r.value.value.Some?
  {
    match j
    case Str(s) => LocKeyFromStrAsWritten(s)
    case Map(entries) => LocKeyFromMapAsWritten(entries)
    case _ => Returns(LocKeyFromNumber(j))
  }

  /** The same decoder with the corrected string rule, which never panics. */
  function DecodeLocKey(j: Json): (r: Result<Option<LocKey>>)
    ensures r.Ok? ==> r.value.Some?
    ensures j.Str? && r.Ok? && r.value.value.Value? ==> r.value.value.text == j.s
    ensures !j.Str? && !j.Map? && r.Ok? ==> r.value.value.ID? && r.value.value.id <= IdMax
  {
    match j
    case Str(s) => LocKeyFromStr(s)
    case Map(entries) => LocKeyFromMap(entries)
    case _ => LocKeyFromNumber(j)
  }

  /**
   * The decoder as written panics exactly on a string, or a map whose first
   * "value" entry is a string, with byte 7 of twelve inside a character.
   */
  lemma DecodePanics(j: Json)
    ensures DecodeLocKeyAsWritten(j).Panics? <==>
      (j.Str? && OffBoundary(j.s)) ||
      (j.Map? && exists k | FirstValueAt(j.entries, k) :: j.entries[k].value.Str? && OffBoundary(j.entries[k].value.s))
  {
    match j
    case Str(s) => AsWrittenPanics(s);
    case Map(entries) => MapPanics(entries);
    case _ =>
  }

  /** Wherever the decoder as written returns, the corrected one returns the same. */
  lemma CorrectedDecodeAgreesWhereNoPanic(j: Json)
    ensures DecodeLocKeyAsWritten(j).Returns? ==> DecodeLocKeyAsWritten(j).value == DecodeLocKey(j)
  {
    match j
    case Str(s) => CorrectedAgreesWhereNoPanic(s);
    case Map(entries) => CorrectedMapAgreesWhereNoPanic(entries);
    case _ =>
  }

  /** "LocKeyéabcd" panics as written both as a string and as the "value" of a map; corrected, it is a string key in both. */
  lemma AccentPanicsInEveryForm()
    ensures DecodeLocKeyAsWritten(Str(SplitAccent)) == Panics(NotCharBoundary)
    ensures DecodeLocKeyAsWritten(Map([Entry("value", Str(SplitAccent))])) == Panics(NotCharBoundary)
    ensures DecodeLocKey(Str(SplitAccent)) == Ok(Some(Value(SplitAccent)))
    ensures DecodeLocKey(Map([Entry("value", Str(SplitAccent))])) == Ok(Some(Value(SplitAccent)))
  {
    AccentPanics();
  }

  /**
   * Numeric keys: an in-range value up to 99999 becomes that id, a larger
   * one is refused, and a negative `i32` is refused as negative.
   */
  lemma NumericLocKeys(v: int)
    ensures 0 <= v <= IdMax ==>
      (DecodeLocKeyAsWritten(U32(v)) == Returns(Ok(Some(ID(v)))) && DecodeLocKeyAsWritten(U64(v)) == Returns(Ok(Some(ID(v)))) &&
       DecodeLocKeyAsWritten(I32(v)) == Returns(Ok(Some(ID(v)))) && DecodeLocKeyAsWritten(I64(v)) == Returns(Ok(Some(ID(v)))))
    ensures IdMax < v < TwoTo32 ==> DecodeLocKeyAsWritten(U32(v)) == Returns(Err(GreaterThanFiveDigits))
    ensures -TwoTo31 <= v < 0 ==> DecodeLocKeyAsWritten(I32(v)) == Returns(Err(NegativeDigit))
  {
  }

  /** Wider integers are truncated to 32 bits first: 2^32 + 7 as a `u64` is the id 7, and -1 as an `i64` is too large. */
  lemma WideKeysAreTruncated()
    ensures DecodeLocKeyAsWritten(U64(TwoTo32 + 7)) == Returns(Ok(Some(ID(7))))
    ensures DecodeLocKeyAsWritten(I64(-1)) == Returns(Err(GreaterThanFiveDigits))
    ensures DecodeLocKeyAsWritten(I16(-1)) == Returns(Err(GreaterThanFiveDigits))
  {
  }

  /**
   * A key written as its id decodes to itself; so does a string key, written
   * as a string or as the "value" of a map, unless it is a 12-byte string
   * starting with `LocKey#` or one whose byte 7 falls inside a character.
   */
  lemma LocKeyRoundTrip(k: LocKey)
    requires k.ID? ==> k.id <= IdMax
    requires k.Value? ==> !(Utf8Len(k.text) == 12 && |k.text| >= 7 && k.text[..7] == LocKeyPrefix)
    requires k.Value? ==> !OffBoundary(k.text)
    ensures DecodeLocKeyAsWritten(if k.ID? then U32(k.id) else Str(k.text)) == Returns(Ok(Some(k)))
    ensures k.Value? ==> DecodeLocKeyAsWritten(Map([Entry("value", Str(k.text))])) == Returns(Ok(Some(k)))
  {
    if k.Value? {
      NoPanicOnBoundary(k.text);
      CorrectedAgreesWhereNoPanic(k.text);
    }
  }

  /** With the corrected string rule every string key round-trips, whatever its bytes, unless it looks like `LocKey#` and five more bytes. */
  lemma CorrectedLocKeyRoundTrip(k: LocKey)
    requires k.ID? ==> k.id <= IdMax
    requires k.Value? ==> !(Utf8Len(k.text) == 12 && |k.text| >= 7 && k.text[..7] == LocKeyPrefix)
    ensures DecodeLocKey(if k.ID? then U32(k.id) else Str(k.text)) == Ok(Some(k))
  {
  }

  /// `Range`

  const UnknownType: string := "unknown type"
  const UnwrapNone: string := "called `Option::unwrap()` on a `None` value"

  /** A number as an `f32` field reads it (rounding left out). */
  function NumberValue(j: Json): Option<real> {
    match j
    case U8(v) => Some(v as real)
    case U16(v) => Some(v as real)
    case U32(v) => Some(v as real)
    case U64(v) => Some(v as real)
    case U128(v) => Some(v as real)
    case I8(v) => Some(v as real)
    case I16(v) => Some(v as real)
    case I32(v) => Some(v as real)
    case I64(v) => Some(v as real)
    case I128(v) => Some(v as real)
    case F32(x) => Some(x)
    case F64(x) => Some(x)
    case _ => None
  }

  function CountKey(entries: seq<Entry>, key: string): nat {
    if |entries| == 0 then 0 else (if entries[0].key == key then 1 else 0) + CountKey(entries[1..], key)
  }

  /** The value of the entry with key `key`, if any: the first one. */
  function ValueOf(entries: seq<Entry>, key: string): (r: Option<Json>)
    ensures r.Some? <==> CountKey(entries, key) > 0
  {
    if |entries| == 0 then None
    else if entries[0].key == key then Some(entries[0].value)
    else ValueOf(entries[1..], key)
  }

  /** One `f32` field of a derived struct decoder: present exactly once, and a number. */
  function Field(entries: seq<Entry>, key: string): (r: Result<real>)
    ensures r.Ok? ==> CountKey(entries, key) == 1
    ensures r.Ok? ==> NumberValue(ValueOf(entries, key).value) == Some(r.value)
  {
    if CountKey(entries, key) == 0 then Err("missing field `" + key + "`")
    else if CountKey(entries, key) > 1 then Err("duplicate field `" + key + "`")
    else match NumberValue(ValueOf(entries, key).value)
      case None => Err(InvalidType)
      case Some(x) => Ok(x)
  }

  /** The derived `Vector2` decoder over the rest of the map: fields "X" and "Y"; other keys are ignored. */
  function DecodeVector2(entries: seq<Entry>): (r: Result<Vector2>)
    ensures r.Ok? ==> CountKey(entries, "X") == 1 && NumberValue(ValueOf(entries, "X").value) == Some(r.value.x)
    ensures r.Ok? ==> CountKey(entries, "Y") == 1 && NumberValue(ValueOf(entries, "Y").value) == Some(r.value.y)
  {
    match Field(entries, "X")
    case Err(e) => Err(e)
    case Ok(x) =>
      match Field(entries, "Y")
      case Err(e) => Err(e)
      case Ok(y) => Ok(Vector2(x, y))
  }

  /** The derived `HDRColor` decoder over the rest of the map: fields "Alpha", "Blue", "Green" and "Red". */
  function DecodeHDRColor(entries: seq<Entry>): (r: Result<HDRColor>)
    ensures r.Ok? ==> CountKey(entries, "Alpha") == 1 && NumberValue(ValueOf(entries, "Alpha").value) == Some(r.value.alpha)
    ensures r.Ok? ==> CountKey(entries, "Blue") == 1 && NumberValue(ValueOf(entries, "Blue").value) == Some(r.value.blue)
    ensures r.Ok? ==> CountKey(entries, "Green") == 1 && NumberValue(ValueOf(entries, "Green").value) == Some(r.value.green)
    ensures r.Ok? ==> CountKey(entries, "Red") == 1 && NumberValue(ValueOf(entries, "Red").value) == Some(r.value.red)
  {
    match Field(entries, "Alpha")
    case Err(e) => Err(e)
    case Ok(a) =>
      match Field(entries, "Blue")
      case Err(e) => Err(e)
      case Ok(b) =>
        match Field(entries, "Green")
        case Err(e) => Err(e)
        case Ok(g) =>
          match Field(entries, "Red")
          case Err(e) => Err(e)
          case Ok(r) => Ok(HDRColor(a, b, g, r))
  }

  /**
   * `visit_map`: the first entry must be `$type` naming `Vector2` or
   * `HDRColor`, and the rest of the map is that value; an empty map panics
   * on `unwrap`.
   */
  function RangeFromMap(entries: seq<Entry>): (r: Outcome<Result<Anim.Range>>)
    ensures r.Panics? <==> |entries| == 0
    ensures r.Returns? && r.value.Ok? ==> entries[0].key == "$type" && !r.value.value.Percent?
    ensures r.Returns? && r.value.Ok? && r.value.value.Position? ==> entries[0].value == Str("Vector2")
    ensures r.Returns? && r.value.Ok? && r.value.value.Color? ==> entries[0].value == Str("HDRColor")
  {
    if |entries| == 0 then Panics(UnwrapNone)
    else if !entries[0].value.Str? then Returns(Err(InvalidType))
    else if entries[0].key == "$type" && entries[0].value.s == "Vector2" then
      Returns(match DecodeVector2(entries[1..]) case Ok(v) => Ok(Anim.Position(v)) case Err(e) => Err(e))
    else if entries[0].key == "$type" && entries[0].value.s == "HDRColor" then
      Returns(match DecodeHDRColor(entries[1..]) case Ok(c) => Ok(Anim.Color(c)) case Err(e) => Err(e))
    else Returns(Err(UnknownType))
  }

  /**
   * `deserialize_vector2_from_anything`, in both of its copies: every
   * integer becomes a percentage through `as i32` (unsigned 64- and 128-bit
   * values through `as u32` first), floats are kept, maps are decoded as above.
   */
  function DecodeRange(j: Json): (r: Outcome<Result<Anim.Range>>)
    ensures r.Returns? && r.value.Ok? ==> (r.value.value.Percent? <==> NumberValue(j).Some?)
    ensures !j.Map? && NumberValue(j).None? ==> r == Returns(Err(InvalidType))
  {
    match j
    case U8(v) => Returns(Ok(Anim.Percent(v as real)))
    case U16(v) => Returns(Ok(Anim.Percent(v as real)))
    case U32(v) => Returns(Ok(Anim.Percent(AsI32(v) as real)))
    case U64(v) => Returns(Ok(Anim.Percent(AsI32(AsU32(v)) as real)))
    case U128(v) => Returns(Ok(Anim.Percent(AsI32(AsU32(v)) as real)))
    case I8(v) => Returns(Ok(Anim.Percent(v as real)))
    case I16(v) => Returns(Ok(Anim.Percent(v as real)))
    case I32(v) => Returns(Ok(Anim.Percent(v as real)))
    case I64(v) => Returns(Ok(Anim.Percent(AsI32(v) as real)))
    case I128(v) => Returns(Ok(Anim.Percent(AsI32(v) as real)))
    case F32(x) => Returns(Ok(Anim.Percent(x)))
    case F64(x) => Returns(Ok(Anim.Percent(x)))
    case Map(entries) => RangeFromMap(entries)
    case _ => Returns(Err(InvalidType))
  }

  /** Every number decodes to a percentage; an integer that fits in an `i32` keeps its value, whatever its width. */
  lemma NumbersArePercentages(j: Json)
    requires NumberValue(j).Some?
    ensures DecodeRange(j).Returns? && DecodeRange(j).value.Ok? && DecodeRange(j).value.value.Percent?
    ensures var x := NumberValue(j).value;
      x == x.Floor as real && -TwoTo31 <= x.Floor < TwoTo31 ==> DecodeRange(j).value.value.percent == x
  {
  }

  /** Unsigned integers at or above 2^31 wrap to negative percentages. */
  lemma LargeUnsignedWraps()
    ensures DecodeRange(U32(TwoTo31)) == Returns(Ok(Anim.Percent(-TwoTo31 as real)))
    ensures DecodeRange(U64(TwoTo32 + 1)) == Returns(Ok(Anim.Percent(1.0)))
  {
  }

  /** The entries a vector is written with. */
  function Vector2Entries(v: Vector2): seq<Entry> {
    [Entry("$type", Str("Vector2")), Entry("X", F32(v.x)), Entry("Y", F32(v.y))]
  }

  function HDRColorEntries(c: HDRColor): seq<Entry> {
    [Entry("$type", Str("HDRColor")), Entry("Alpha", F32(c.alpha)), Entry("Blue", F32(c.blue)),
     Entry("Green", F32(c.green)), Entry("Red", F32(c.red))]
  }

  /** A vector written with its `$type` first decodes to itself. */
  lemma Vector2RoundTrip(v: Vector2)
    ensures DecodeRange(Map(Vector2Entries(v))) == Returns(Ok(Anim.Position(v)))
  {
    var ve := Vector2Entries(v)[1..];
    assert ve == [Entry("X", F32(v.x)), Entry("Y", F32(v.y))];
    OnlyEntryWithKey(ve, 0, "X");
    OnlyEntryWithKey(ve, 1, "Y");
  }

  /** A colour written with its `$type` first decodes to itself. */
  lemma HDRColorRoundTrip(c: HDRColor)
    ensures DecodeRange(Map(HDRColorEntries(c))) == Returns(Ok(Anim.Color(c)))
  {
    var ce := HDRColorEntries(c)[1..];
    assert ce == [Entry("Alpha", F32(c.alpha)), Entry("Blue", F32(c.blue)), Entry("Green", F32(c.green)), Entry("Red", F32(c.red))];
    OnlyEntryWithKey(ce, 0, "Alpha");
    OnlyEntryWithKey(ce, 1, "Blue");
    OnlyEntryWithKey(ce, 2, "Green");
    OnlyEntryWithKey(ce, 3, "Red");
    assert Field(ce, "Alpha") == Ok(c.alpha) && Field(ce, "Blue") == Ok(c.blue);
    assert Field(ce, "Green") == Ok(c.green) && Field(ce, "Red") == Ok(c.red);
    assert DecodeHDRColor(ce) == Ok(c);
  }

  /** A field named by exactly one entry is read from that entry. */
  lemma {:induction false} OnlyEntryWithKey(entries: seq<Entry>, k: nat, key: string)
    requires k < |entries| && entries[k].key == key
    requires forall j | 0 <= j < |entries| && j != k :: entries[j].key != key
    ensures CountKey(entries, key) == 1 && ValueOf(entries, key) == Some(entries[k].value)
  {
    if k == 0 {
      NoEntryWithKey(entries[1..], key);
    } else {
      assert entries[1..][k - 1] == entries[k];
      OnlyEntryWithKey(entries[1..], k - 1, key);
    }
  }

  lemma {:induction false} NoEntryWithKey(entries: seq<Entry>, key: string)
    requires forall j | 0 <= j < |entries| :: entries[j].key != key
    ensures CountKey(entries, key) == 0
  {
    if |entries| > 0 {
      NoEntryWithKey(entries[1..], key);
    }
  }

  /** A map whose first entry is not a `$type` naming a known value is "unknown type", even if `$type` comes later. */
  lemma TypeTagMustComeFirst(entries: seq<Entry>)
    requires |entries| > 0 && entries[0].value.Str?
    requires entries[0].key != "$type" || (entries[0].value.s != "Vector2" && entries[0].value.s != "HDRColor")
    ensures DecodeRange(Map(entries)) == Returns(Err(UnknownType))
  {
  }

  /** Only the empty map panics. */
  lemma OnlyEmptyMapPanics(j: Json)
    ensures DecodeRange(j).Panics? <==> j == Map([])
  {
  }
}
