/**
 * Walking the widget tree (src/ink/widget/implementation.rs): child lookup by
 * position and by name, the summary of named children, and the three walks
 * between index paths, name paths and class names.
 *
 * Each walk keeps a `parent` widget and goes down one level per path entry.
 * In the source `parent` is an `Option` that is only ever set to `Some`, so
 * its `is_none` exit is never taken and the model keeps a plain widget.
 * Names are compared and returned by their `$value`.
 */
module Tree {
  import opened Wrappers
  import opened Ink
  import opened Widget
  import Text

  // ----- child lookups -----

  /**
   * `by_index`: a widget with children returns the child at `idx`, if there
   * is one; a leaf returns itself whatever `idx` is.
   */
  function ByIndex(w: Widget, idx: nat): (r: Option<Widget>)
    ensures w.Leaf? ==> r == Some(w)
    ensures !w.Leaf? ==> (r.Some? <==> idx < |ChildNodes(w)|)
    ensures !w.Leaf? && r.Some? ==> r.value == ChildNodes(w)[idx].data
  {
    if w.Leaf? then Some(w)
    else if idx < |Children(w)| then Some(Children(w)[idx])
    else None
  }

  /** The kinds that `by_name` and `leaves` recognise: canvas, text, horizontal and vertical panels. */
  predicate Findable(w: Widget) {
    (w.Compound? && (w.kind.inkCanvasWidget? || w.kind.inkHorizontalPanelWidget? || w.kind.inkVerticalPanelWidget?))
    || (w.Leaf? && w.leafKind.inkTextWidget?)
  }

  /** The `$value` of a widget's name; the children wrapper has none. */
  function NameValue(w: Widget): string {
    match NameOf(w)
    case Some(n) => AsStr(n)
    case None => ""
  }

  /** A child that `by_name` accepts for `name`. */
  predicate Named(w: Widget, name: string) {
    Findable(w) && NameValue(w) == name
  }

  function UnexpectedMultiChildrenNamed(name: string): string {
    "unexpected inkMultiChildren with name " + name
  }

  /**
   * `by_name` from position `from` on: the first child in order that
   * `Named` accepts, with its position; a children wrapper met first panics.
   */
  function ByNameFrom(children: seq<Widget>, name: string, from: nat): (r: Outcome<Option<(nat, Widget)>>)
    ensures r.Returns? && r.value.Some? ==>
      from <= r.value.value.0 < |children| && r.value.value.1 == children[r.value.value.0] && Named(r.value.value.1, name)
    ensures r.Panics? ==> r.message == UnexpectedMultiChildrenNamed(name)
    decreases |children| - from
  {
    if from >= |children| then Returns(None)
    else if children[from].inkMultiChildren? then Panics(UnexpectedMultiChildrenNamed(name))
    else if Named(children[from], name) then Returns(Some((from, children[from])))
    else ByNameFrom(children, name, from + 1)
  }

  /** Nothing before position `p` is a children wrapper or a match for `name`. */
  predicate ClearBefore(children: seq<Widget>, name: string, from: nat, p: nat)
    requires p <= |children|
  {
    forall j :: from <= j < p ==> !children[j].inkMultiChildren? && !Named(children[j], name)
  }

  /**
   * What `by_name` returns: the first match and its position, none when no
   * child matches and no wrapper is met, and a panic when a wrapper comes
   * before any match.
   */
  lemma {:induction false} ByNameOutcome(children: seq<Widget>, name: string, from: nat)
    requires from <= |children|
    ensures var r := ByNameFrom(children, name, from);
      r.Returns? && r.value.Some? ==>
        var (p, w) := r.value.value;
        from <= p < |children| && w == children[p] && Named(w, name) && ClearBefore(children, name, from, p)
    ensures ByNameFrom(children, name, from) == Returns(None) <==> ClearBefore(children, name, from, |children|)
    ensures ByNameFrom(children, name, from).Panics? <==>
      exists p :: from <= p < |children| && children[p].inkMultiChildren? && ClearBefore(children, name, from, p)
    decreases |children| - from
  {
    if from < |children| {
      ByNameOutcome(children, name, from + 1);
      var r := ByNameFrom(children, name, from);
      if children[from].inkMultiChildren? {
        assert ClearBefore(children, name, from, from);
        assert !ClearBefore(children, name, from, |children|);
      } else if Named(children[from], name) {
        assert ClearBefore(children, name, from, from);
        forall p | from <= p < |children| && children[p].inkMultiChildren?
          ensures !ClearBefore(children, name, from, p)
        {
          assert p != from;
        }
      } else {
        if exists p :: from + 1 <= p < |children| && children[p].inkMultiChildren? && ClearBefore(children, name, from + 1, p) {
          var p :| from + 1 <= p < |children| && children[p].inkMultiChildren? && ClearBefore(children, name, from + 1, p);
          assert ClearBefore(children, name, from, p);
        }
        if exists p :: from <= p < |children| && children[p].inkMultiChildren? && ClearBefore(children, name, from, p) {
          var p :| from <= p < |children| && children[p].inkMultiChildren? && ClearBefore(children, name, from, p);
          assert p != from && ClearBefore(children, name, from + 1, p);
        }
      }
    }
  }

  /** The first accepted child, with nothing before it in the way, is what `by_name` finds. */
  lemma ByNameFindsFirst(children: seq<Widget>, name: string, p: nat)
    requires p < |children| && Named(children[p], name) && ClearBefore(children, name, 0, p)
    ensures ByNameFrom(children, name, 0) == Returns(Some((p, children[p])))
  {
    ByNameOutcome(children, name, 0);
    var r := ByNameFrom(children, name, 0);
    assert !ClearBefore(children, name, 0, |children|);
    assert forall q :: 0 <= q < |children| && children[q].inkMultiChildren? ==> !ClearBefore(children, name, 0, q);
    assert r.Returns? && r.value.Some?;
    var q := r.value.value.0;
    assert Named(children[q], name) && ClearBefore(children, name, 0, q);
    assert forall q :: 0 <= q < |children| && Named(children[q], name) && ClearBefore(children, name, 0, q) ==> q == p;
  }

  /** `ByName::by_name` on a widget with children: the early-return loop over its children. */
  method ByName(parent: Widget, name: string) returns (r: Outcome<Option<(nat, Widget)>>)
    requires !parent.Leaf?
    ensures r == ByNameFrom(Children(parent), name, 0)
  {
    var children := Children(parent);
    var idx := 0;
    while idx < |children|
      invariant 0 <= idx <= |children|
      invariant ByNameFrom(children, name, idx) == ByNameFrom(children, name, 0)
    {
      var child := children[idx];
      if child.inkMultiChildren? {
        return Panics(UnexpectedMultiChildrenNamed(name));
      }
      if Named(child, name) {
        return Returns(Some((idx, child)));
      }
      idx := idx + 1;
    }
    return Returns(None);
  }

  // ----- leaves -----

  /** `WidgetSummary`: a child's handle id and name. */
  datatype WidgetSummary = WidgetSummary(handleId: HandleId, name: Name)

  /** The summaries of the recognised children among `nodes`, in order. */
  function LeavesOf(nodes: seq<InkWrapper<Widget>>): (out: seq<WidgetSummary>)
    ensures |out| <= |nodes|
  {
    if |nodes| == 0 then []
    else
      var last := nodes[|nodes| - 1];
      LeavesOf(nodes[..|nodes| - 1]) +
      (if Findable(last.data) then [WidgetSummary(last.handleId, NameOf(last.data).value)] else [])
  }

  /** Summarising a concatenation summarises each part in turn: the order of the children is kept. */
  lemma {:induction false} LeavesOfAppend(a: seq<InkWrapper<Widget>>, b: seq<InkWrapper<Widget>>)
    ensures LeavesOf(a + b) == LeavesOf(a) + LeavesOf(b)
    decreases |b|
  {
    if |b| > 0 {
      var b' := b[..|b| - 1];
      assert (a + b)[..|a + b| - 1] == a + b';
      LeavesOfAppend(a, b');
    } else {
      assert a + b == a;
    }
  }

  /** A summary is listed exactly when it belongs to a recognised child. */
  lemma {:induction false} LeavesOfMembers(nodes: seq<InkWrapper<Widget>>, s: WidgetSummary)
    ensures s in LeavesOf(nodes) <==>
      exists k :: 0 <= k < |nodes| && Findable(nodes[k].data)
        && s == WidgetSummary(nodes[k].handleId, NameOf(nodes[k].data).value)
  {
    if |nodes| > 0 {
      var init := nodes[..|nodes| - 1];
      LeavesOfMembers(init, s);
      if exists k :: 0 <= k < |init| && Findable(init[k].data) && s == WidgetSummary(init[k].handleId, NameOf(init[k].data).value) {
        var k :| 0 <= k < |init| && Findable(init[k].data) && s == WidgetSummary(init[k].handleId, NameOf(init[k].data).value);
        assert nodes[k] == init[k];
      }
      if exists k :: 0 <= k < |nodes| && Findable(nodes[k].data) && s == WidgetSummary(nodes[k].handleId, NameOf(nodes[k].data).value) {
        var k :| 0 <= k < |nodes| && Findable(nodes[k].data) && s == WidgetSummary(nodes[k].handleId, NameOf(nodes[k].data).value);
        if k < |init| { assert init[k] == nodes[k]; }
      }
    }
  }

  /** `Leaves::leaves` on a compound widget: push a summary for each recognised child. */
  method Leaves(parent: Widget) returns (out: seq<WidgetSummary>)
    requires parent.Compound?
    ensures out == LeavesOf(ChildNodes(parent))
  {
    var nodes := ChildNodes(parent);
    out := [];
    for i := 0 to |nodes|
      invariant out == LeavesOf(nodes[..i])
    {
      var child := nodes[i];
      assert nodes[..i + 1][..i] == nodes[..i];
      if Findable(child.data) {
        out := out + [WidgetSummary(child.handleId, NameOf(child.data).value)];
      }
    }
    assert nodes[..|nodes|] == nodes;
  }

  // ----- the walks -----

  function UnexpectedMultiChildrenAt(idx: nat): string {
    "encountered unexpected inkMultiChildren at index " + Text.Decimal(idx)
  }

  /** `names` in front of a successful result; none and panics pass through. */
  function AddPrefix<T>(pre: seq<T>, o: Outcome<Option<seq<T>>>): Outcome<Option<seq<T>>> {
    match o
    case Returns(Some(rest)) => Returns(Some(pre + rest))
    case _ => o
  }

  lemma AddPrefixEmpty<T>(o: Outcome<Option<seq<T>>>)
    ensures AddPrefix([], o) == o
  {
    if o.Returns? && o.value.Some? {
      assert [] + o.value.value == o.value.value;
    }
  }

  lemma AddPrefixTwice<T>(a: seq<T>, b: seq<T>, o: Outcome<Option<seq<T>>>)
    ensures AddPrefix(a, AddPrefix(b, o)) == AddPrefix(a + b, o)
  {
    if o.Returns? && o.value.Some? {
      assert a + (b + o.value.value) == (a + b) + o.value.value;
    }
  }

  /**
   * The rest of `get_widget_kind` from `parent` on: an out-of-range index is
   * skipped with the parent unchanged, a leaf ends the walk with its class
   * name, and a compound ends it only at the last index.
   */
  function KindFrom(parent: Widget, path: seq<nat>): (r: Outcome<Option<string>>)
    ensures r.Returns? && r.value.Some? ==> r.value.value in Variants && r.value.value != "inkMultiChildren"
    decreases |path|
  {
    if |path| == 0 then Returns(None)
    else match ByIndex(parent, path[0])
      case None => KindFrom(parent, path[1..])
      case Some(child) =>
        match child
        case inkMultiChildren(_) => Panics(UnexpectedMultiChildrenAt(path[0]))
        case Compound(_, _) => if |path| == 1 then Returns(Some(Classname(child))) else KindFrom(child, path[1..])
        case Leaf(_, _) => Returns(Some(Classname(child)))
  }

  /** `get_widget_kind`: `path.len() - 1` underflows on the empty path (a panic in debug builds). */
  function WidgetKind(inst: inkWidgetLibraryItemInstance, path: seq<nat>): Outcome<Option<string>> {
    if |path| == 0 then Panics(SubtractOverflow) else KindFrom(WalkStart(inst), path)
  }

  method GetWidgetKind(inst: inkWidgetLibraryItemInstance, path: seq<nat>) returns (r: Outcome<Option<string>>)
    ensures r == WidgetKind(inst, path)
  {
    if |path| == 0 {
      return Panics(SubtractOverflow);
    }
    var last := |path| - 1;
    var parent := WalkStart(inst);
    ghost var whole := KindFrom(parent, path);
    var i := 0;
    assert path[0..] == path;
    while i < |path|
      invariant 0 <= i <= |path|
      invariant KindFrom(parent, path[i..]) == whole
    {
      var idx := path[i];
      assert path[i..][0] == idx && path[i..][1..] == path[i + 1..];
      var found := ByIndex(parent, idx);
      if found.Some? {
        var child := found.value;
        match child {
          case inkMultiChildren(_) =>
            return Panics(UnexpectedMultiChildrenAt(idx));
          case Compound(_, _) =>
            if i == last {
              return Returns(Some(Classname(child)));
            }
            parent := child;
          case Leaf(_, _) =>
            return Returns(Some(Classname(child)));
        }
      }
      i := i + 1;
    }
    return Returns(None);
  }

  /** The kind walk reaches a leaf within `path`. */
  predicate ReachesLeaf(parent: Widget, path: seq<nat>)
    decreases |path|
  {
    |path| > 0 &&
    match ByIndex(parent, path[0])
    case None => ReachesLeaf(parent, path[1..])
    case Some(child) =>
      match child
      case inkMultiChildren(_) => false
      case Compound(_, _) => ReachesLeaf(child, path[1..])
      case Leaf(_, _) => true
  }

  /** Once a leaf is reached, the indices after it are ignored, and the result is a leaf's class name. */
  lemma {:induction false} LeafAbsorbsTrailingIndices(parent: Widget, path: seq<nat>, rest: seq<nat>)
    requires ReachesLeaf(parent, path)
    ensures KindFrom(parent, path + rest) == KindFrom(parent, path)
    ensures KindFrom(parent, path).Returns? && KindFrom(parent, path).value.Some?
    ensures KindFrom(parent, path).value.value in Variants[9..]
    decreases |path|
  {
    assert (path + rest)[0] == path[0] && (path + rest)[1..] == path[1..] + rest;
    match ByIndex(parent, path[0])
    case None =>
      LeafAbsorbsTrailingIndices(parent, path[1..], rest);
    case Some(child) =>
      match child {
        case inkMultiChildren(_) =>
        case Compound(_, _) =>
          assert |path| > 1;
          LeafAbsorbsTrailingIndices(child, path[1..], rest);
        case Leaf(_, _) =>
          var i := VariantIndex(child);
          assert Variants[9..][i - 9] == Variants[i];
      }
  }

  /**
   * The rest of `get_path_names` from `parent` on: an out-of-range index
   * gives none, a compound adds its name and the walk goes on, and a leaf
   * adds its name and ends the walk, or gives none if indices remain.
   */
  function NamesFrom(parent: Widget, path: seq<nat>): (r: Outcome<Option<seq<string>>>)
    ensures |path| > 0 && r.Returns? && r.value.Some? ==>
      ByIndex(parent, path[0]).Some? && |r.value.value| > 0 && r.value.value[0] == NameValue(ByIndex(parent, path[0]).value)
    decreases |path|
  {
    if |path| == 0 then Returns(Some([]))
    else match ByIndex(parent, path[0])
      case None => Returns(None)
      case Some(child) =>
        match child
        case inkMultiChildren(_) => Panics(UnexpectedMultiChildrenAt(path[0]))
        case Compound(_, node) => AddPrefix([AsStr(node.name)], NamesFrom(child, path[1..]))
        case Leaf(_, leaf) => if |path| > 1 then Returns(None) else Returns(Some([AsStr(leaf.name)]))
  }

  /** `get_path_names`, with the same underflow on the empty path. */
  function PathNames(inst: inkWidgetLibraryItemInstance, path: seq<nat>): (r: Outcome<Option<seq<string>>>)
    ensures |path| == 0 ==> r == Panics(SubtractOverflow)
    ensures r.Returns? && r.value.Some? ==> |r.value.value| == |path|
  {
    NamesMatchPathLength(WalkStart(inst), path);
    if |path| == 0 then Panics(SubtractOverflow) else NamesFrom(WalkStart(inst), path)
  }

  method GetPathNames(inst: inkWidgetLibraryItemInstance, path: seq<nat>) returns (r: Outcome<Option<seq<string>>>)
    ensures r == PathNames(inst, path)
  {
    if |path| == 0 {
      return Panics(SubtractOverflow);
    }
    var names: seq<string> := [];
    var parent := WalkStart(inst);
    var depth := |path| - 1;
    var i := 0;
    assert path[0..] == path;
    AddPrefixEmpty(NamesFrom(parent, path));
    while i < |path|
      invariant 0 <= i <= |path|
      invariant AddPrefix(names, NamesFrom(parent, path[i..])) == PathNames(inst, path)
    {
      var idx := path[i];
      assert path[i..][0] == idx && path[i..][1..] == path[i + 1..];
      var found := ByIndex(parent, idx);
      if found.None? {
        return Returns(None);
      }
      var child := found.value;
      match child {
        case inkMultiChildren(_) =>
          return Panics(UnexpectedMultiChildrenAt(idx));
        case Compound(_, node) =>
          AddPrefixTwice(names, [AsStr(node.name)], NamesFrom(child, path[i + 1..]));
          names := names + [AsStr(node.name)];
          parent := child;
        case Leaf(_, leaf) =>
          names := names + [AsStr(leaf.name)];
          if i < depth {
            return Returns(None);
          }
          return Returns(Some(names));
      }
      i := i + 1;
    }
    assert path[i..] == [] && names + [] == names;
    return Returns(Some(names));
  }

  /** A successful name walk names every index of the path. */
  lemma {:induction false} NamesMatchPathLength(parent: Widget, path: seq<nat>)
    ensures var r := NamesFrom(parent, path);
      r.Returns? && r.value.Some? ==> |r.value.value| == |path|
    decreases |path|
  {
    if |path| > 0 {
      NamesMatchPathLength(parent, path[1..]);
      match ByIndex(parent, path[0])
      case None =>
      case Some(child) =>
        if child.Compound? {
          NamesMatchPathLength(child, path[1..]);
        }
    }
  }

  /** Where the name walk succeeds, so does the kind walk: both follow the same indices. */
  lemma {:induction false} NamesImplyKind(parent: Widget, path: seq<nat>)
    requires |path| > 0
    ensures var r := NamesFrom(parent, path);
      r.Returns? && r.value.Some? ==> KindFrom(parent, path).Returns? && KindFrom(parent, path).value.Some?
    decreases |path|
  {
    match ByIndex(parent, path[0])
    case None =>
    case Some(child) =>
      if child.Compound? && |path| > 1 {
        NamesImplyKind(child, path[1..]);
      }
  }

  /** An out-of-range index stops the name walk but is skipped by the kind walk. */
  lemma OutOfRangeIndex(parent: Widget, idx: nat, rest: seq<nat>)
    requires !parent.Leaf? && idx >= |ChildNodes(parent)|
    ensures NamesFrom(parent, [idx] + rest) == Returns(None)
    ensures KindFrom(parent, [idx] + rest) == KindFrom(parent, rest)
  {
    assert ([idx] + rest)[1..] == rest;
  }

  /**
   * The rest of `get_path_indexes` from `parent` on, as written: a leaf
   * parent gives none if names remain after the current one, and otherwise
   * ends the walk, so the last name after a leaf is not looked up.
   */
  function IndexesFrom(parent: Widget, names: seq<string>): (r: Outcome<Option<seq<nat>>>)
    ensures |names| > 0 && r.Returns? && r.value.Some? && |r.value.value| > 0 ==>
      r.value.value[0] < |Children(parent)| && Named(Children(parent)[r.value.value[0]], names[0])
    decreases |names|
  {
    if |names| == 0 then Returns(Some([]))
    else if parent.Leaf? then (if |names| > 1 then Returns(None) else Returns(Some([])))
    else match ByNameFrom(Children(parent), names[0], 0)
      case Panics(m) => Panics(m)
      case Returns(None) => Returns(None)
      case Returns(Some((idx, child))) => AddPrefix([idx], IndexesFrom(child, names[1..]))
  }

  /**
   * The rest of `get_path_indexes` as evidently intended: a leaf has no
   * children, so any name left to look up under it gives none.
   */
  function IndexesFromCorrected(parent: Widget, names: seq<string>): (r: Outcome<Option<seq<nat>>>)
    ensures |names| > 0 && r.Returns? && r.value.Some? && |r.value.value| > 0 ==>
      r.value.value[0] < |Children(parent)| && Named(Children(parent)[r.value.value[0]], names[0])
    decreases |names|
  {
    if |names| == 0 then Returns(Some([]))
    else if parent.Leaf? then Returns(None)
    else match ByNameFrom(Children(parent), names[0], 0)
      case Panics(m) => Panics(m)
      case Returns(None) => Returns(None)
      case Returns(Some((idx, child))) => AddPrefix([idx], IndexesFromCorrected(child, names[1..]))
  }

  /** `get_path_indexes` as written, with the same underflow on the empty path. */
  function PathIndexes(inst: inkWidgetLibraryItemInstance, names: seq<string>): (r: Outcome<Option<seq<nat>>>)
    ensures |names| == 0 ==> r == Panics(SubtractOverflow)
    ensures r.Returns? && r.value.Some? ==> |r.value.value| == |names| || |r.value.value| + 1 == |names|
  {
    IndexesAsWrittenVersusCorrected(WalkStart(inst), names);
    if |names| == 0 then Panics(SubtractOverflow) else IndexesFrom(WalkStart(inst), names)
  }

  /** `get_path_indexes` as evidently intended. */
  function PathIndexesCorrected(inst: inkWidgetLibraryItemInstance, names: seq<string>): (r: Outcome<Option<seq<nat>>>)
    ensures |names| == 0 ==> r == Panics(SubtractOverflow)
    ensures r.Returns? && r.value.Some? ==> |r.value.value| == |names|
  {
    CorrectedIndexesMatchNames(WalkStart(inst), names);
    if |names| == 0 then Panics(SubtractOverflow) else IndexesFromCorrected(WalkStart(inst), names)
  }

  method GetPathIndexes(inst: inkWidgetLibraryItemInstance, names: seq<string>) returns (r: Outcome<Option<seq<nat>>>)
    ensures r == PathIndexes(inst, names)
  {
    if |names| == 0 {
      return Panics(SubtractOverflow);
    }
    var indexes: seq<nat> := [];
    var depth := |names| - 1;
    var parent := WalkStart(inst);
    var i := 0;
    assert names[0..] == names;
    AddPrefixEmpty(IndexesFrom(parent, names));
    while i < |names|
      invariant 0 <= i <= |names|
      invariant AddPrefix(indexes, IndexesFrom(parent, names[i..])) == PathIndexes(inst, names)
    {
      var name := names[i];
      assert names[i..][0] == name && names[i..][1..] == names[i + 1..];
      if parent.Leaf? {
        if i < depth {
          return Returns(None);
        }
        assert IndexesFrom(parent, names[i..]) == Returns(Some([]));
        break;
      }
      var found := ByName(parent, name);
      match found {
        case Panics(m) =>
          return Panics(m);
        case Returns(None) =>
          return Returns(None);
        case Returns(Some((idx, child))) =>
          AddPrefixTwice(indexes, [idx], IndexesFrom(child, names[i + 1..]));
          indexes := indexes + [idx];
          parent := child;
      }
      i := i + 1;
    }
    assert indexes + [] == indexes;
    return Returns(Some(indexes));
  }

  /** The corrected walk gives one index per name whenever it succeeds. */
  lemma {:induction false} CorrectedIndexesMatchNames(parent: Widget, names: seq<string>)
    ensures var r := IndexesFromCorrected(parent, names);
      r.Returns? && r.value.Some? ==> |r.value.value| == |names|
    decreases |names|
  {
    if |names| > 0 && !parent.Leaf? {
      match ByNameFrom(Children(parent), names[0], 0)
      case Panics(_) =>
      case Returns(None) =>
      case Returns(Some((idx, child))) =>
        CorrectedIndexesMatchNames(child, names[1..]);
    }
  }

  /**
   * The walk as written gives one index per name, or one fewer when a leaf
   * was reached at the second-to-last name; whenever it gives one per name,
   * the corrected walk agrees with it.
   */
  lemma {:induction false} IndexesAsWrittenVersusCorrected(parent: Widget, names: seq<string>)
    ensures var r := IndexesFrom(parent, names);
      r.Returns? && r.value.Some? ==> |r.value.value| == |names| || |r.value.value| + 1 == |names|
    ensures var r := IndexesFrom(parent, names);
      r.Returns? && r.value.Some? && |r.value.value| == |names| ==> IndexesFromCorrected(parent, names) == r
    ensures var r := IndexesFrom(parent, names);
      !(r.Returns? && r.value.Some?) ==> IndexesFromCorrected(parent, names) == r
    decreases |names|
  {
    if |names| > 0 && !parent.Leaf? {
      match ByNameFrom(Children(parent), names[0], 0)
      case Panics(_) =>
      case Returns(None) =>
      case Returns(Some((idx, child))) =>
        IndexesAsWrittenVersusCorrected(child, names[1..]);
    }
  }

  /**
   * The discrepancy: when the first child of the root is a text widget
   * named `leafName`, the walk as written resolves `[leafName, anything]` to
   * `[0]`, ignoring the second name, while the corrected walk finds no
   * widget for it.
   */
  lemma NameAfterLeafIsIgnored(inst: inkWidgetLibraryItemInstance, leafName: string, next: string)
    requires |ChildNodes(WalkStart(inst))| > 0
    requires var first := ChildNodes(WalkStart(inst))[0].data;
      first.Leaf? && first.leafKind.inkTextWidget? && AsStr(first.leaf.name) == leafName
    ensures PathIndexes(inst, [leafName, next]) == Returns(Some([0]))
    ensures PathIndexesCorrected(inst, [leafName, next]) == Returns(None)
  {
    var start := WalkStart(inst);
    var children := Children(start);
    var first := children[0];
    assert Named(first, leafName);
    ByNameFindsFirst(children, leafName, 0);
    assert [leafName, next][1..] == [next];
    assert IndexesFrom(first, [next]) == Returns(Some([]));
    assert IndexesFrom(start, [leafName, next]) == AddPrefix([0], IndexesFrom(first, [next]));
    assert [0] + [] == [0];
    assert IndexesFromCorrected(first, [next]) == Returns(None);
    assert IndexesFromCorrected(start, [leafName, next]) == AddPrefix([0], IndexesFromCorrected(first, [next]));
  }

  /**
   * A path along which every widget is a canvas, text or panel, is the
   * first child with its name, and has no children wrapper before it; only
   * the last widget may be a leaf.
   */
  predicate FirstNamedPath(parent: Widget, path: seq<nat>)
    decreases |path|
  {
    |path| == 0 ||
    (!parent.Leaf? && path[0] < |Children(parent)| &&
     var child := Children(parent)[path[0]];
     Named(child, NameValue(child)) &&
     ClearBefore(Children(parent), NameValue(child), 0, path[0]) &&
     (child.Leaf? ==> |path| == 1) &&
     FirstNamedPath(child, path[1..]))
  }

  /** Round trip: the names of such a path lead back to the same indices, both as written and corrected. */
  lemma {:induction false} NamesThenIndexes(parent: Widget, path: seq<nat>)
    requires FirstNamedPath(parent, path)
    ensures NamesFrom(parent, path).Returns? && NamesFrom(parent, path).value.Some?
    ensures IndexesFrom(parent, NamesFrom(parent, path).value.value) == Returns(Some(path))
    ensures IndexesFromCorrected(parent, NamesFrom(parent, path).value.value) == Returns(Some(path))
    decreases |path|
  {
    if |path| > 0 {
      var children := Children(parent);
      var child := children[path[0]];
      var name := NameValue(child);
      assert ByIndex(parent, path[0]) == Some(child);
      ByNameFindsFirst(children, name, path[0]);
      NamesThenIndexes(child, path[1..]);
      var rest := NamesFrom(child, path[1..]).value.value;
      if child.Compound? {
        assert NamesFrom(parent, path) == Returns(Some([name] + rest));
        assert ([name] + rest)[0] == name && ([name] + rest)[1..] == rest;
        assert path == [path[0]] + path[1..];
        assert IndexesFrom(parent, [name] + rest) == AddPrefix([path[0]], IndexesFrom(child, rest));
        assert IndexesFromCorrected(parent, [name] + rest) == AddPrefix([path[0]], IndexesFromCorrected(child, rest));
      } else {
        assert NamesFrom(parent, path) == Returns(Some([name]));
        assert path == [path[0]] && [name][1..] == [] && [path[0]] + [] == path;
        assert IndexesFrom(parent, [name]) == AddPrefix([path[0]], IndexesFrom(child, []));
        assert IndexesFromCorrected(parent, [name]) == AddPrefix([path[0]], IndexesFromCorrected(child, []));
      }
    }
  }

  /** The round trip from the root: `get_path_indexes(get_path_names(p)) == p`. */
  lemma PathRoundTrip(inst: inkWidgetLibraryItemInstance, path: seq<nat>)
    requires |path| > 0 && FirstNamedPath(WalkStart(inst), path)
    ensures PathNames(inst, path).Returns? && PathNames(inst, path).value.Some?
    ensures PathIndexes(inst, PathNames(inst, path).value.value) == Returns(Some(path))
  {
    NamesThenIndexes(WalkStart(inst), path);
    NamesMatchPathLength(WalkStart(inst), path);
  }
}
