/**
 * Behaviour of the code generated by the `RedsWidget` and `RedsValue`
 * derive macros (macros/src/lib.rs) and of `RedsValue for f32` (src/lib.rs).
 *
 * A derived type is described by its field table: the `NAME` constant, and
 * for every field in declaration order its identifier and the `reds_value`
 * of the field's current value.  Formatting of field types whose
 * `RedsValue` impl is not part of this model is passed in as a function.
 */
module Reds {
  import opened Wrappers
  import Text

  /** One row of a field table: the Rust field identifier and the field's `reds_value`. */
  datatype FieldValue = FieldValue(ident: string, value: Option<string>)

  function ConstructionLine(instance: string, typeName: string): string {
    "let " + instance + " = new " + typeName + "();"
  }

  function AssignmentLine(instance: string, ident: string, v: string): string {
    instance + "." + ident + " = " + v + ";"
  }

  function AddChildLine(parent: string, instance: string): string {
    parent + ".AddChild(" + instance + ");"
  }

  /** The assignments for the fields whose `reds_value` is `Some`, in declaration order. */
  function Assignments(instance: string, fields: seq<FieldValue>): (lines: seq<string>)
    ensures |lines| <= |fields|
  {
    if fields == [] then []
    else
      var last := fields[|fields| - 1];
      Assignments(instance, fields[..|fields| - 1])
        + (match last.value
           case Some(v) => [AssignmentLine(instance, last.ident, v)]
           case None => [])
  }

  /** The statements `reds_widget(instance, parent)` joins. */
  function WidgetSteps(instance: string, typeName: string, fields: seq<FieldValue>, parent: Option<string>): seq<string> {
    [ConstructionLine(instance, typeName)]
      + Assignments(instance, fields)
      + (match parent
         case Some(p) => [AddChildLine(p, instance)]
         case None => [])
  }

  /** Number of fields whose `reds_value` is `Some`. */
  function CountSome(fields: seq<FieldValue>): nat {
    if fields == [] then 0
    else CountSome(fields[..|fields| - 1]) + (if fields[|fields| - 1].value.Some? then 1 else 0)
  }

  /**
   * Generated `reds_widget`: push the construction line, one assignment per
   * field with a value, the `AddChild` line when there is a parent, and join
   * the lines with newlines.
   */
  method RedsWidget(instance: string, typeName: string, fields: seq<FieldValue>, parent: Option<string>)
    returns (text: string)
    ensures text == Text.Join(WidgetSteps(instance, typeName, fields, parent), "\n")
  {
    var steps := [ConstructionLine(instance, typeName)];
    var i := 0;
    while i < |fields|
      invariant 0 <= i <= |fields|
      invariant steps == [ConstructionLine(instance, typeName)] + Assignments(instance, fields[..i])
    {
      assert fields[..i + 1][..i] == fields[..i];
      match fields[i].value {
        case Some(v) =>
          steps := steps + [AssignmentLine(instance, fields[i].ident, v)];
        case None =>
      }
      i := i + 1;
    }
    assert fields[..|fields|] == fields;
    match parent {
      case Some(p) =>
        steps := steps + [AddChildLine(p, instance)];
      case None =>
    }
    assert steps == WidgetSteps(instance, typeName, fields, parent);
    text := Text.Join(steps, "\n");
  }

  /** One assignment per field with a value, and nothing for the others. */
  lemma {:induction false} AssignmentsCount(instance: string, fields: seq<FieldValue>)
    ensures |Assignments(instance, fields)| == CountSome(fields)
  {
    if fields != [] {
      AssignmentsCount(instance, fields[..|fields| - 1]);
    }
  }

  /**
   * Shape of the emitted statements: construction first, then the
   * assignments in field order, then `AddChild` exactly when a parent is given.
   */
  lemma WidgetStepsShape(instance: string, typeName: string, fields: seq<FieldValue>, parent: Option<string>)
    ensures var steps := WidgetSteps(instance, typeName, fields, parent);
      && steps[0] == ConstructionLine(instance, typeName)
      && |steps| == 1 + CountSome(fields) + (if parent.Some? then 1 else 0)
      && (parent.Some? ==> steps[|steps| - 1] == AddChildLine(parent.value, instance))
      && steps[1..1 + CountSome(fields)] == Assignments(instance, fields)
  {
    AssignmentsCount(instance, fields);
  }

  /** The assignment for field `k` is present exactly when that field has a value, after those of the earlier fields. */
  lemma {:induction false} AssignmentOfField(instance: string, fields: seq<FieldValue>, k: nat)
    requires k < |fields| && fields[k].value.Some?
    ensures CountSome(fields[..k]) < |Assignments(instance, fields)|
    ensures Assignments(instance, fields)[CountSome(fields[..k])]
      == AssignmentLine(instance, fields[k].ident, fields[k].value.value)
  {
    var n := |fields|;
    AssignmentsCount(instance, fields[..n - 1]);
    AssignmentsCount(instance, fields[..k]);
    if k == n - 1 {
      assert fields[..n - 1] == fields[..k];
    } else {
      assert fields[..n - 1][..k] == fields[..k];
      AssignmentOfField(instance, fields[..n - 1], k);
      var init := Assignments(instance, fields[..n - 1]);
      var tail := Assignments(instance, fields)[|init|..];
      assert Assignments(instance, fields) == init + tail;
    }
  }

  /** When every field is at its default (no value), only the construction line and the optional `AddChild` remain. */
  lemma AllDefaultFieldsEmitNoAssignment(instance: string, typeName: string, fields: seq<FieldValue>, parent: Option<string>)
    requires forall k :: 0 <= k < |fields| ==> fields[k].value.None?
    ensures WidgetSteps(instance, typeName, fields, parent)
      == [ConstructionLine(instance, typeName)] + (if parent.Some? then [AddChildLine(parent.value, instance)] else [])
  {
    AssignmentsCount(instance, fields);
    assert CountSome(fields) == 0 by {
      NoValueNoCount(fields);
    }
  }

  lemma {:induction false} NoValueNoCount(fields: seq<FieldValue>)
    requires forall k :: 0 <= k < |fields| ==> fields[k].value.None?
    ensures CountSome(fields) == 0
  {
    if fields != [] {
      NoValueNoCount(fields[..|fields| - 1]);
    }
  }

  /** `reds_value().unwrap_or(Default::default())`: an absent argument still takes its place. */
  function ArgText(v: Option<string>): string {
    match v
    case Some(s) => s
    case None => ""
  }

  function ArgTexts(args: seq<Option<string>>): (texts: seq<string>)
    ensures |texts| == |args|
    ensures forall k :: 0 <= k < |args| ==> texts[k] == ArgText(args[k])
  {
    seq(|args|, k requires 0 <= k < |args| => ArgText(args[k]))
  }

  /**
   * Generated `reds_value` of a struct or tuple struct: none when the value
   * equals the type's default, otherwise a constructor call with one
   * argument per field in declaration order.
   */
  function StructValue(typeName: string, isDefault: bool, args: seq<Option<string>>): (r: Option<string>)
    ensures r.None? <==> isDefault
  {
    if isDefault then None
    else Some("new " + typeName + "(" + Text.Join(ArgTexts(args), ", ") + ")")
  }

  /** With two arguments the rendering is the two texts separated by a comma. */
  lemma PairArguments(typeName: string, isDefault: bool, args: seq<Option<string>>)
    requires |args| == 2
    ensures var r := StructValue(typeName, isDefault, args);
      r.Some? ==> r.value == "new " + typeName + "(" + ArgText(args[0]) + ", " + ArgText(args[1]) + ")"
  {
    var texts := ArgTexts(args);
    assert texts[1..] == [texts[1]];
    assert Text.Join(texts, ", ") == texts[0] + ", " + texts[1];
  }

  /** The loop the macro expands into: push each argument, then join them. */
  method BuildStructValue(typeName: string, isDefault: bool, args: seq<Option<string>>)
    returns (r: Option<string>)
    ensures r == StructValue(typeName, isDefault, args)
  {
    if isDefault {
      return None;
    }
    var pushed: seq<string> := [];
    var i := 0;
    while i < |args|
      invariant 0 <= i <= |args|
      invariant pushed == ArgTexts(args[..i])
    {
      assert args[..i + 1][..i] == args[..i];
      pushed := pushed + [ArgText(args[i])];
      i := i + 1;
    }
    assert args[..|args|] == args;
    r := Some("new " + typeName + "(" + Text.Join(pushed, ", ") + ")");
  }

  /** Generated `reds_value` of a fieldless enum: none for the default variant, `NAME.Variant` otherwise. */
  function EnumValue(typeName: string, variant: string, isDefault: bool): (r: Option<string>)
    ensures r.None? <==> isDefault
    ensures r.Some? ==> r.value == typeName + "." + variant
  {
    if isDefault then None else Some(typeName + "." + variant)
  }

  /** The shapes of Rust item a derive can be attached to. */
  datatype Item =
    | StructItem(tuple: bool, fields: seq<string>)
    | EnumItem(variants: seq<EnumVariant>)
    | UnionItem

  datatype EnumVariant = EnumVariant(ident: string, fieldCount: nat)

  /** What a derive expands into. */
  datatype Expansion = WidgetImpl | StructValueImpl(positional: bool) | EnumValueImpl

  /** `#[derive(RedsWidget)]`: structs only. */
  function DeriveRedsWidget(item: Item): (r: Result<Expansion>)
    ensures r.Ok? <==> item.StructItem?
  {
    match item
    case StructItem(_, _) => Ok(WidgetImpl)
    case _ => Err("RedsWidget cannot be derived neither on union nor enum")
  }

  /** `#[derive(RedsValue)]`: structs, and enums whose variants all lack fields. */
  function DeriveRedsValue(item: Item): (r: Result<Expansion>)
    ensures r.Ok? <==> (item.StructItem?
      || (item.EnumItem? && forall k :: 0 <= k < |item.variants| ==> item.variants[k].fieldCount == 0))
  {
    match item
    case StructItem(tuple, _) => Ok(StructValueImpl(tuple))
    case EnumItem(variants) =>
      if forall k :: 0 <= k < |variants| ==> variants[k].fieldCount == 0 then Ok(EnumValueImpl)
      else Err("RedsValue can only be derived on enum with unit variants")
    case UnionItem => Err("RedsValue cannot be derived on union")
  }

  /** Decimal rendering of an integer, with a minus sign when negative. */
  function SignedDecimal(i: int): (s: string)
    ensures |s| >= 1
  {
    if i < 0 then "-" + Text.Decimal(-i) else Text.Decimal(i)
  }

  predicate IsWhole(x: real) {
    x == x.Floor as real
  }

  /**
   * `RedsValue for f32`: a whole number gets a trailing "." so that it reads
   * as a float literal; any other value keeps its own rendering, which is
   * passed in as `fraction`.  Zero is a value like any other: never elided.
   */
  function F32Value(x: real, fraction: real -> string): (r: Option<string>)
    ensures r.Some?
    ensures IsWhole(x) ==> r.value == SignedDecimal(x.Floor) + "."
    ensures !IsWhole(x) ==> r.value == fraction(x)
  {
    if IsWhole(x) then Some(SignedDecimal(x.Floor) + ".") else Some(fraction(x))
  }

  lemma F32Examples(fraction: real -> string)
    ensures F32Value(2.0, fraction) == Some("2.")
    ensures F32Value(0.0, fraction) == Some("0.")
    ensures F32Value(-3.0, fraction) == Some("-3.")
    ensures F32Value(0.5, fraction) == Some(fraction(0.5))
  {
    assert (2.0).Floor == 2 && Text.Decimal(2) == "2";
    assert F32Value(2.0, fraction).value == "2" + "." == "2.";
    assert (0.0).Floor == 0 && Text.Decimal(0) == "0";
    assert F32Value(0.0, fraction).value == "0" + "." == "0.";
    assert (-3.0).Floor == -3 && Text.Decimal(3) == "3";
    assert F32Value(-3.0, fraction).value == "-" + "3" + "." == "-3.";
  }

  /** A whole float's rendering ends with the point and determines the value. */
  lemma WholeFloatRenderingIsInjective(x: real, y: real, fraction: real -> string)
    requires IsWhole(x) && IsWhole(y) && x >= 0.0 && y >= 0.0
    requires F32Value(x, fraction) == F32Value(y, fraction)
    ensures x == y
  {
    var sx := Text.Decimal(x.Floor);
    var sy := Text.Decimal(y.Floor);
    assert sx + "." == sy + ".";
    assert sx == (sx + ".")[..|sx|];
    assert sy == (sy + ".")[..|sy|];
    Text.DecimalInjective(x.Floor, y.Floor);
  }
}
