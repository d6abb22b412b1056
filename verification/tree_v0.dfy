/**
 * The earlier widget tree (src/ink/widget.rs): three variants only, names
 * as plain strings, child lookup by position, summaries of named children,
 * and a `get_path_names` that stops at the first text leaf and ignores the
 * indices after it.
 */
module EarlyTree {
  import opened Wrappers
  import opened Ink
  import Text
  import Tree

  /** The canvas fields: its children and its name. */
  datatype Canvas = Canvas(children: InkWrapper<MultiChildren>, name: string)

  datatype MultiChildren = MultiChildren(children: seq<InkWrapper<Widget>>)

  datatype Widget =
    | inkCanvasWidget(canvas: Canvas)
    | inkMultiChildren(multi: MultiChildren)
    | inkTextWidget(name: string)

  /** A canvas, wrapped as a widget. */
  type CanvasWidget = w: Widget | w.inkCanvasWidget?
    witness inkCanvasWidget(Canvas(InkWrapper(0, MultiChildren([])), ""))

  datatype inkWidgetLibraryItemInstance = inkWidgetLibraryItemInstance(rootWidget: InkWrapper<CanvasWidget>)

  datatype Package = Package(file: File<inkWidgetLibraryItemInstance>)

  datatype inkWidgetLibraryItem = inkWidgetLibraryItem(name: string, package: Package)

  datatype AnimationLibraryResRef = AnimationLibraryResRef(depotPath: string)

  datatype inkWidgetLibraryResource = inkWidgetLibraryResource(
    animationLibraryResRef: AnimationLibraryResRef,
    externalDependenciesForInternalItems: seq<AnimationLibraryResRef>,
    libraryItems: seq<inkWidgetLibraryItem>)

  /** The root instance of the first library item; `expect("Root")` panics when there is none. */
  function RootChunk(res: inkWidgetLibraryResource): (r: Outcome<inkWidgetLibraryItemInstance>)
    ensures r.Panics? <==> |res.libraryItems| == 0
    ensures r.Returns? ==> r.value == Resource(res.libraryItems[0].package.file)
  {
    if |res.libraryItems| == 0 then Panics("Root") else Returns(res.libraryItems[0].package.file.data.rootChunk)
  }

  function ChildNodes(w: Widget): seq<InkWrapper<Widget>> {
    match w
    case inkCanvasWidget(c) => c.children.data.children
    case inkMultiChildren(m) => m.children
    case inkTextWidget(_) => []
  }

  /** `by_index`: canvas and wrapper return the child at `idx`, if any; a text leaf returns itself. */
  function ByIndex(w: Widget, idx: nat): (r: Option<Widget>)
    ensures w.inkTextWidget? ==> r == Some(w)
    ensures !w.inkTextWidget? ==> (r.Some? <==> idx < |ChildNodes(w)|)
    ensures !w.inkTextWidget? && r.Some? ==> r.value == ChildNodes(w)[idx].data
  {
    match w
    case inkTextWidget(_) => Some(w)
    case _ => if idx < |ChildNodes(w)| then Some(ChildNodes(w)[idx].data) else None
  }

  /** The walk starts from the root canvas's children, wrapped as an `inkMultiChildren`. */
  function WalkStart(inst: inkWidgetLibraryItemInstance): (w: Widget)
    ensures w.inkMultiChildren? && ChildNodes(w) == ChildNodes(inst.rootWidget.data)
  {
    inkMultiChildren(inst.rootWidget.data.canvas.children.data)
  }

  function UnexpectedMultiChildrenAt(idx: nat): string {
    "encountered unexpected inkMultiChildren at index " + Text.Decimal(idx)
  }

  /**
   * The rest of `get_path_names` from `parent` on: an out-of-range index
   * gives none, a canvas adds its name and the walk goes on, and a text
   * leaf adds its name and ends the walk, whatever indices remain.
   */
  function NamesFrom(parent: Widget, path: seq<nat>): (r: Outcome<Option<seq<string>>>)
    ensures |path| > 0 && r.Returns? && r.value.Some? ==>
      ByIndex(parent, path[0]).Some? && !ByIndex(parent, path[0]).value.inkMultiChildren? &&
      |r.value.value| > 0 && r.value.value[0] == LeafName(ByIndex(parent, path[0]).value)
    decreases |path|
  {
    if |path| == 0 then Returns(Some([]))
    else match ByIndex(parent, path[0])
      case None => Returns(None)
      case Some(child) =>
        match child
        case inkMultiChildren(_) => Panics(UnexpectedMultiChildrenAt(path[0]))
        case inkCanvasWidget(c) =>
          (match NamesFrom(child, path[1..])
           case Returns(Some(rest)) => Returns(Some([c.name] + rest))
           case other => other)
        case inkTextWidget(name) => Returns(Some([name]))
  }

  /** `get_path_names`; this version has no `len() - 1`, so the empty path names nothing. */
  function PathNames(inst: inkWidgetLibraryItemInstance, path: seq<nat>): (r: Outcome<Option<seq<string>>>)
    ensures |path| == 0 ==> r == Returns(Some([]))
    ensures r.Returns? && r.value.Some? ==> |r.value.value| <= |path|
  {
    NamesAtMostPathLength(WalkStart(inst), path);
    NamesFrom(WalkStart(inst), path)
  }

  method GetPathNames(inst: inkWidgetLibraryItemInstance, path: seq<nat>) returns (r: Outcome<Option<seq<string>>>)
    ensures r == PathNames(inst, path)
  {
    var names: seq<string> := [];
    var parent := WalkStart(inst);
    ghost var whole := NamesFrom(parent, path);
    var i := 0;
    assert path[0..] == path;
    Tree.AddPrefixEmpty(whole);
    while i < |path|
      invariant 0 <= i <= |path|
      invariant Tree.AddPrefix(names, NamesFrom(parent, path[i..])) == whole
    {
      var idx := path[i];
      assert path[i..][0] == idx && path[i..][1..] == path[i + 1..];
      var found := ByIndex(parent, idx);
      if found.None? {
        return Returns(None);
      }
      var child := found.value;
      match child {
        case inkCanvasWidget(c) =>
          assert NamesFrom(parent, path[i..]) == Tree.AddPrefix([c.name], NamesFrom(child, path[i + 1..]));
          Tree.AddPrefixTwice(names, [c.name], NamesFrom(child, path[i + 1..]));
          names := names + [c.name];
          parent := child;
        case inkMultiChildren(_) =>
          return Panics(UnexpectedMultiChildrenAt(idx));
        case inkTextWidget(name) =>
          names := names + [name];
          return Returns(Some(names));
      }
      i := i + 1;
    }
    assert path[i..] == [] && names + [] == names;
    return Returns(Some(names));
  }

  /** The walk panics only on a wrapper met at one of the path's indices. */
  lemma {:induction false} NamesFromPanics(parent: Widget, path: seq<nat>)
    ensures NamesFrom(parent, path).Panics? ==>
      exists i | 0 <= i < |path| :: NamesFrom(parent, path).message == UnexpectedMultiChildrenAt(path[i])
    decreases |path|
  {
    if |path| > 0 {
      match ByIndex(parent, path[0])
      case None =>
      case Some(child) =>
        if child.inkCanvasWidget? && NamesFrom(child, path[1..]).Panics? {
          NamesFromPanics(child, path[1..]);
          var i :| 0 <= i < |path| - 1 && NamesFrom(child, path[1..]).message == UnexpectedMultiChildrenAt(path[1..][i]);
          assert path[1..][i] == path[i + 1];
        }
    }
  }

  /** The empty path gives no names rather than a panic. */
  lemma EmptyPathNamesNothing(inst: inkWidgetLibraryItemInstance)
    ensures PathNames(inst, []) == Returns(Some([]))
  {
  }

  /** The walk reaches a text leaf within `path`. */
  predicate ReachesText(parent: Widget, path: seq<nat>)
    decreases |path|
  {
    |path| > 0 &&
    match ByIndex(parent, path[0])
    case None => false
    case Some(child) =>
      match child
      case inkMultiChildren(_) => false
      case inkCanvasWidget(_) => ReachesText(child, path[1..])
      case inkTextWidget(_) => true
  }

  /** Once a text leaf is reached, the indices after it change nothing. */
  lemma {:induction false} TextIgnoresTrailingIndices(parent: Widget, path: seq<nat>, rest: seq<nat>)
    requires ReachesText(parent, path)
    ensures NamesFrom(parent, path + rest) == NamesFrom(parent, path)
    ensures NamesFrom(parent, path).Returns? && NamesFrom(parent, path).value.Some?
    decreases |path|
  {
    assert (path + rest)[0] == path[0] && (path + rest)[1..] == path[1..] + rest;
    var child := ByIndex(parent, path[0]).value;
    if child.inkCanvasWidget? {
      TextIgnoresTrailingIndices(child, path[1..], rest);
    }
  }

  /** A successful walk never names more widgets than the path has indices, and names all of them unless a text leaf came first. */
  lemma {:induction false} NamesAtMostPathLength(parent: Widget, path: seq<nat>)
    ensures var r := NamesFrom(parent, path);
      r.Returns? && r.value.Some? ==> |r.value.value| <= |path|
    ensures var r := NamesFrom(parent, path);
      r.Returns? && r.value.Some? && !ReachesText(parent, path) ==> |r.value.value| == |path|
    decreases |path|
  {
    if |path| > 0 {
      match ByIndex(parent, path[0])
      case None =>
      case Some(child) =>
        if child.inkCanvasWidget? {
          NamesAtMostPathLength(child, path[1..]);
        }
    }
  }

  /**
   * Unlike the later walk, a text leaf followed by further indices still
   * gives its name: the first child of the root being a text leaf, `[0, k]`
   * names just that leaf.
   */
  lemma TextBeforeEndStillNamed(inst: inkWidgetLibraryItemInstance, k: nat)
    requires |ChildNodes(WalkStart(inst))| > 0 && ChildNodes(WalkStart(inst))[0].data.inkTextWidget?
    ensures PathNames(inst, [0, k]) == Returns(Some([ChildNodes(WalkStart(inst))[0].data.name]))
  {
  }

  /** `WidgetSummary` of this version: a handle id and a plain name. */
  datatype WidgetSummary = WidgetSummary(handleId: HandleId, name: string)

  /** The name a text or canvas child is summarised under. */
  function LeafName(w: Widget): string
    requires !w.inkMultiChildren?
  {
    match w
    case inkTextWidget(name) => name
    case inkCanvasWidget(c) => c.name
  }

  /** The summaries of text and canvas children among `nodes`, in order. */
  function LeavesOf(nodes: seq<InkWrapper<Widget>>): (out: seq<WidgetSummary>)
    ensures |out| <= |nodes|
  {
    if |nodes| == 0 then []
    else
      var last := nodes[|nodes| - 1];
      LeavesOf(nodes[..|nodes| - 1]) +
      (if last.data.inkMultiChildren? then [] else [WidgetSummary(last.handleId, LeafName(last.data))])
  }

  /** Listing two runs of children one after the other lists their summaries in the same order. */
  lemma {:induction false} LeavesOfAppend(a: seq<InkWrapper<Widget>>, b: seq<InkWrapper<Widget>>)
    ensures LeavesOf(a + b) == LeavesOf(a) + LeavesOf(b)
    decreases |b|
  {
    if |b| > 0 {
      var b' := b[..|b| - 1];
      assert (a + b)[..|a + b| - 1] == a + b';
      LeavesOfAppend(a, b');
    } else {
      assert a + b == a;
    }
  }

  /** Child node `k` is a text or canvas whose summary is `s`. */
  predicate SummarisedAt(nodes: seq<InkWrapper<Widget>>, k: int, s: WidgetSummary) {
    0 <= k < |nodes| && !nodes[k].data.inkMultiChildren? && s == WidgetSummary(nodes[k].handleId, LeafName(nodes[k].data))
  }

  /** A summary is listed exactly when it is the handle id and name of a text or canvas child. */
  lemma {:induction false} LeavesOfMembers(nodes: seq<InkWrapper<Widget>>, s: WidgetSummary)
    ensures s in LeavesOf(nodes) <==> exists k :: SummarisedAt(nodes, k, s)
  {
    if |nodes| > 0 {
      var init := nodes[..|nodes| - 1];
      var last := nodes[|nodes| - 1];
      var own: seq<WidgetSummary> := if last.data.inkMultiChildren? then [] else [WidgetSummary(last.handleId, LeafName(last.data))];
      assert LeavesOf(nodes) == LeavesOf(init) + own;
      assert s in own <==> SummarisedAt(nodes, |nodes| - 1, s);
      LeavesOfMembers(init, s);
      forall k | SummarisedAt(init, k, s) ensures SummarisedAt(nodes, k, s) {
        assert nodes[k] == init[k];
      }
      forall k | SummarisedAt(nodes, k, s) && k < |init| ensures SummarisedAt(init, k, s) {
        assert init[k] == nodes[k];
      }
    }
  }

  /** The summaries list exactly the text and canvas children. */
  lemma {:induction false} LeavesOfCount(nodes: seq<InkWrapper<Widget>>)
    ensures |LeavesOf(nodes)| == |nodes| - |set k | 0 <= k < |nodes| && nodes[k].data.inkMultiChildren?|
  {
    if |nodes| > 0 {
      var init := nodes[..|nodes| - 1];
      LeavesOfCount(init);
      var n := |nodes| - 1;
      var before := set k | 0 <= k < |init| && init[k].data.inkMultiChildren?;
      var after := set k | 0 <= k < |nodes| && nodes[k].data.inkMultiChildren?;
      assert before == set k | 0 <= k < n && nodes[k].data.inkMultiChildren?;
      if nodes[n].data.inkMultiChildren? {
        assert after == before + {n};
      } else {
        assert after == before;
      }
    }
  }

  /** `Leaves::leaves` on the children wrapper; a canvas delegates to its children. */
  method Leaves(w: Widget) returns (out: seq<WidgetSummary>)
    requires !w.inkTextWidget?
    ensures out == LeavesOf(ChildNodes(w))
  {
    var nodes := ChildNodes(w);
    out := [];
    for i := 0 to |nodes|
      invariant out == LeavesOf(nodes[..i])
    {
      var child := nodes[i];
      assert nodes[..i + 1][..i] == nodes[..i];
      match child.data {
        case inkTextWidget(name) => out := out + [WidgetSummary(child.handleId, name)];
        case inkCanvasWidget(c) => out := out + [WidgetSummary(child.handleId, c.name)];
        case inkMultiChildren(_) =>
      }
    }
    assert nodes[..|nodes|] == nodes;
  }
}
