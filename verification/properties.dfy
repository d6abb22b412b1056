/**
 * Property binding descriptors (src/ink/widget/properties.rs and
 * crates/types/src/ink/widget/properties.rs): defaults, `NAME` constants,
 * generated `reds_value`, and the hand-written serialisers.
 */
module Properties {
  import opened Wrappers
  import opened Ink
  import Reds
  import WidgetBase

  datatype inkPropertyBinding = inkPropertyBinding(propertyName: Name, stylePath: Name)

  datatype inkPropertyManager = inkPropertyManager(bindings: seq<inkPropertyBinding>)

  datatype PropertyManager = PropertyManager(handleId: HandleId, data: inkPropertyManager)

  const BindingName: string := "inkPropertyBinding"
  const ManagerName: string := "inkPropertyManager"
  const PropertyManagerName: string := "PropertyManager"

  const DefaultBinding: inkPropertyBinding := inkPropertyBinding(DefaultName, DefaultName)
  const DefaultManager: inkPropertyManager := inkPropertyManager([])
  const DefaultPropertyManager: PropertyManager := PropertyManager(0, DefaultManager)

  /** `new inkPropertyBinding(property_name, style_path)`, none when default. */
  function BindingValue(b: inkPropertyBinding, fmt: WidgetBase.Formatters): (r: Option<string>)
    ensures r.None? <==> b == DefaultBinding
    ensures r.Some? ==>
      r.value == "new " + BindingName + "(" + Reds.ArgText(fmt.name(b.propertyName)) + ", " + Reds.ArgText(fmt.name(b.stylePath)) + ")"
  {
    var args := [fmt.name(b.propertyName), fmt.name(b.stylePath)];
    var isDefault := b == DefaultBinding;
    Reds.PairArguments(BindingName, isDefault, args);
    Reds.StructValue(BindingName, isDefault, args)
  }

  /**
   * `new inkPropertyManager(bindings)`, none when there are no bindings; the
   * rendering of the binding list is passed in as `list`.
   */
  function ManagerValue(m: inkPropertyManager, list: seq<inkPropertyBinding> -> Option<string>): (r: Option<string>)
    ensures r.None? <==> m.bindings == []
    ensures r.Some? ==> r.value == "new " + ManagerName + "(" + Reds.ArgText(list(m.bindings)) + ")"
  {
    var r := Reds.StructValue(ManagerName, m == DefaultManager, [list(m.bindings)]);
    assert r.Some? ==> Reds.ArgTexts([list(m.bindings)]) == [Reds.ArgText(list(m.bindings))];
    r
  }

  /** `new PropertyManager(handle_id, data)`, none when default. */
  function PropertyManagerValue(p: PropertyManager, fmt: WidgetBase.Formatters,
                                list: seq<inkPropertyBinding> -> Option<string>): (r: Option<string>)
    ensures r.None? <==> p.handleId == 0 && p.data.bindings == []
    ensures r.Some? ==>
      r.value == "new " + PropertyManagerName + "(" + Reds.ArgText(fmt.handleId(p.handleId)) + ", " + Reds.ArgText(ManagerValue(p.data, list)) + ")"
  {
    var args := [fmt.handleId(p.handleId), ManagerValue(p.data, list)];
    var isDefault := p == DefaultPropertyManager;
    Reds.PairArguments(PropertyManagerName, isDefault, args);
    Reds.StructValue(PropertyManagerName, isDefault, args)
  }

  /** A binding serialises as a struct with exactly `propertyName` then `stylePath`. */
  function SerializeBinding(b: inkPropertyBinding): Serialized {
    SerStruct("inkPropertyBinding", [SerField("propertyName", SerializeName(b.propertyName)),
                                     SerField("stylePath", SerializeName(b.stylePath))])
  }

  /** A manager serialises as the sequence of its bindings. */
  function ManagerSerialized(m: inkPropertyManager): (r: Serialized)
    ensures r.SerSeq? && |r.elements| == |m.bindings|
    ensures forall k :: 0 <= k < |m.bindings| ==> r.elements[k] == SerializeBinding(m.bindings[k])
  {
    SerSeq(seq(|m.bindings|, k requires 0 <= k < |m.bindings| => SerializeBinding(m.bindings[k])))
  }

  /** `Serialize for inkPropertyManager`: open a sequence and feed it each binding in turn. */
  method SerializeManager(m: inkPropertyManager) returns (r: Serialized)
    ensures r == ManagerSerialized(m)
  {
    var elements: seq<Serialized> := [];
    for i := 0 to |m.bindings|
      invariant |elements| == i
      invariant forall k :: 0 <= k < i ==> elements[k] == SerializeBinding(m.bindings[k])
    {
      elements := elements + [SerializeBinding(m.bindings[i])];
    }
    r := SerSeq(elements);
  }

  /** `Serialize for PropertyManager`: only the manager data, never the handle id. */
  function SerializePropertyManager(p: PropertyManager): (r: Serialized)
    ensures r == ManagerSerialized(p.data)
  {
    ManagerSerialized(p.data)
  }

  /** Two property managers with the same data serialise alike whatever their handle ids. */
  lemma PropertyManagerSerializationDropsHandle(p: PropertyManager, q: PropertyManager)
    requires p.data == q.data
    ensures SerializePropertyManager(p) == SerializePropertyManager(q)
  {
  }

  /** The binding serialisation keeps both names, so it determines their `$value`s. */
  lemma BindingSerializationKeepsValues(a: inkPropertyBinding, b: inkPropertyBinding)
    ensures SerializeBinding(a) == SerializeBinding(b) <==>
      a.propertyName.value == b.propertyName.value && a.stylePath.value == b.stylePath.value
  {
    if SerializeBinding(a) == SerializeBinding(b) {
      assert SerializeBinding(a).fields[0] == SerializeBinding(b).fields[0];
      assert SerializeBinding(a).fields[1] == SerializeBinding(b).fields[1];
    }
  }
}
