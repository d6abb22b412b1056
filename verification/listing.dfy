/**
 * The selection behind the animation listing (src/main.rs, src/list/mod.rs,
 * crates/cli/src/list/mod.rs): one table per animation sequence; in each,
 * one block per definition that keeps at least one interpolator after the
 * type filter and whose target passes the path filter; each block carries
 * the definition's position and handle, the target's location (its indexes,
 * or the widget names along it) and the kept interpolators with their
 * original positions. Cell layout and rendering are not modelled.
 */
module Listing {
  import opened Wrappers
  import opened Ink
  import Text
  import Filters
  import Anim
  import EarlyTree
  import Widget
  import Tree

  /** The command-line filters and switches. */
  datatype Options = Options(
    filterByPath: Option<seq<nat>>,
    filterByType: Option<Filters.InkAnimInterpolatorType>,
    showPathNames: bool)

  /** The widget document names are looked up in: the earlier tree, or the later one. */
  datatype Document =
    | Early(early: EarlyTree.inkWidgetLibraryResource)
    | Later(later: Widget.inkWidgetLibraryResource)

  /** An interpolator kept for display, with its position in the definition. */
  datatype OrphanInkAnimInterpolator = OrphanInkAnimInterpolator(index: nat, interpolator: InkWrapper<Anim.InkAnimInterpolator>)

  /** The block of one definition: its position, its handle, the target location and the kept interpolators. */
  datatype DefinitionBlock = DefinitionBlock(
    definitionIndex: nat,
    definitionHandleId: HandleId,
    location: string,
    interpolators: seq<OrphanInkAnimInterpolator>)

  datatype SequenceTable = SequenceTable(sequenceName: string, blocks: seq<DefinitionBlock>)

  const LengthsMustMatch: string := "widget and anim lengths must match"
  const NoTarget: string := "each anim definition should have a corresponding widget target"

  /// Kept interpolators

  predicate Keeps(filter: Option<Filters.InkAnimInterpolatorType>, a: Anim.InkAnimInterpolator) {
    filter.None? || Anim.Matches(a, filter.value)
  }

  /** The interpolators from position `k` on that the type filter keeps, each with its position. */
  function KeptFrom(xs: seq<InkWrapper<Anim.InkAnimInterpolator>>, filter: Option<Filters.InkAnimInterpolatorType>, k: nat): (r: seq<OrphanInkAnimInterpolator>)
    requires k <= |xs|
    ensures |r| <= |xs| - k
    decreases |xs| - k
  {
    if k == |xs| then []
    else (if Keeps(filter, xs[k].data) then [OrphanInkAnimInterpolator(k, xs[k])] else []) + KeptFrom(xs, filter, k + 1)
  }

  function Kept(xs: seq<InkWrapper<Anim.InkAnimInterpolator>>, filter: Option<Filters.InkAnimInterpolatorType>): (r: seq<OrphanInkAnimInterpolator>)
    ensures |r| <= |xs|
  {
    KeptFrom(xs, filter, 0)
  }

  /** Each kept interpolator sits at its recorded position and passes the filter. */
  lemma {:induction false} KeptSound(xs: seq<InkWrapper<Anim.InkAnimInterpolator>>, filter: Option<Filters.InkAnimInterpolatorType>, k: nat)
    requires k <= |xs|
    ensures forall o | o in KeptFrom(xs, filter, k) :: k <= o.index < |xs| && o.interpolator == xs[o.index] && Keeps(filter, o.interpolator.data)
    decreases |xs| - k
  {
    if k < |xs| {
      KeptSound(xs, filter, k + 1);
    }
  }

  /** Every interpolator from `k` on that passes the filter is kept. */
  lemma {:induction false} KeptComplete(xs: seq<InkWrapper<Anim.InkAnimInterpolator>>, filter: Option<Filters.InkAnimInterpolatorType>, k: nat, m: nat)
    requires k <= m < |xs| && Keeps(filter, xs[m].data)
    ensures OrphanInkAnimInterpolator(m, xs[m]) in KeptFrom(xs, filter, k)
    decreases |xs| - k
  {
    if k < m {
      KeptComplete(xs, filter, k + 1, m);
    }
  }

  /** Without a type filter every interpolator is kept, at its own position. */
  lemma {:induction false} KeptWithoutFilter(xs: seq<InkWrapper<Anim.InkAnimInterpolator>>, k: nat)
    requires k <= |xs|
    ensures |KeptFrom(xs, None, k)| == |xs| - k
    ensures forall j | 0 <= j < |xs| - k :: KeptFrom(xs, None, k)[j] == OrphanInkAnimInterpolator(k + j, xs[k + j])
    decreases |xs| - k
  {
    if k < |xs| {
      KeptWithoutFilter(xs, k + 1);
      var rest := KeptFrom(xs, None, k + 1);
      assert KeptFrom(xs, None, k) == [OrphanInkAnimInterpolator(k, xs[k])] + rest;
    }
  }

  /** With a type filter, the kept interpolators are those `get_interpolators_matching` filters, in the same order. */
  lemma {:induction false} KeptAgreesWithFiltered(xs: seq<InkWrapper<Anim.InkAnimInterpolator>>, filter: Filters.InkAnimInterpolatorType, k: nat)
    requires k <= |xs|
    ensures var kept := KeptFrom(xs, Some(filter), k);
      |kept| == |Anim.Filtered(xs[k..], filter)| &&
      forall j | 0 <= j < |kept| :: kept[j].interpolator == Anim.Filtered(xs[k..], filter)[j]
    decreases |xs| - k
  {
    if k < |xs| {
      KeptAgreesWithFiltered(xs, filter, k + 1);
      assert xs[k..][0] == xs[k] && xs[k..][1..] == xs[k + 1..];
    }
  }

  /// Locations

  /** The target path as its indexes joined by " . ". */
  function IndexesText(path: seq<nat>): (r: string)
    ensures |path| == 0 <==> r == ""
    ensures |path| == 1 ==> r == Text.Decimal(path[0])
  {
    Text.Join(seq(|path|, j requires 0 <= j < |path| => Text.Decimal(path[j])), " . ")
  }

  /** Resolved names joined by " . "; a path that does not resolve renders as "". */
  function NamesText(names: Option<seq<string>>): (r: string)
    ensures names.None? ==> r == ""
  {
    if names.Some? then Text.Join(names.value, " . ") else ""
  }

  /**
   * The location shown for a target: nothing for a pathless target; with
   * names shown, the names along the path in the document's first library
   * item; otherwise the indexes. The later listings look up the first
   * library item for every path-bearing target (for the widget kind column).
   */
  function Location(doc: Document, infos: Option<seq<nat>>, showPathNames: bool): (r: Outcome<string>)
    ensures infos.None? ==> r == Returns("")
    ensures r.Panics? ==> infos.Some? && (showPathNames || doc.Later?)
    ensures infos.Some? && !showPathNames && r.Returns? ==> r.value == IndexesText(infos.value)
  {
    if infos.None? then Returns("")
    else match doc
      case Early(res) =>
        if !showPathNames then Returns(IndexesText(infos.value))
        else (match EarlyTree.RootChunk(res)
          case Panics(m) => Panics(m)
          case Returns(inst) =>
            (match EarlyTree.PathNames(inst, infos.value)
             case Panics(m) => Panics(m)
             case Returns(names) => Returns(NamesText(names))))
      case Later(res) =>
        match Widget.RootChunk(res)
        case Panics(m) => Panics(m)
        case Returns(inst) =>
          if !showPathNames then Returns(IndexesText(infos.value))
          else (match Tree.PathNames(inst, infos.value)
            case Panics(m) => Panics(m)
            case Returns(names) => Returns(NamesText(names)))
  }

  /// The selection

  function PathOf(t: Anim.Target): Option<seq<nat>> {
    match t
    case WithHandleId(h) => Some(h.data.path)
    case WithoutHandleId(_) => None
  }

  /** The path filter lets a target through: no filter, or a path below the filter. */
  predicate PassesPathFilter(filter: Option<seq<nat>>, infos: Option<seq<nat>>)
    ensures filter.None? ==> PassesPathFilter(filter, infos)
    ensures filter.Some? && PassesPathFilter(filter, infos) ==>
      infos.Some? && |filter.value| <= |infos.value| && infos.value[..|filter.value|] == filter.value
  {
    filter.None? || (infos.Some? && Anim.IsPrefix(filter.value, infos.value))
  }

  /** The block of definition `k`, if it is shown at all. */
  function BlockFor(doc: Document, s: Anim.InkAnimSequence, opts: Options, k: nat): (r: Outcome<Option<DefinitionBlock>>)
    requires k < |s.definitions|
    ensures |Kept(s.definitions[k].data.interpolators, opts.filterByType)| == 0 ==> r == Returns(None)
    ensures r.Returns? && r.value.Some? ==> r.value.value.definitionIndex == k && |r.value.value.interpolators| > 0
    ensures r.Panics? ==> r.message == NoTarget || (k < |s.targets| && PathOf(s.targets[k]).Some?)
  {
    var kept := Kept(s.definitions[k].data.interpolators, opts.filterByType);
    if |kept| == 0 then Returns(None)
    else if k >= |s.targets| then Panics(NoTarget)
    else
      var infos := PathOf(s.targets[k]);
      if !PassesPathFilter(opts.filterByPath, infos) then Returns(None)
      else match Location(doc, infos, opts.showPathNames)
        case Panics(m) => Panics(m)
        case Returns(location) => Returns(Some(DefinitionBlock(k, s.definitions[k].handleId, location, kept)))
  }

  /** The blocks of the definitions from `k` on. */
  function BlocksFrom(doc: Document, s: Anim.InkAnimSequence, opts: Options, k: nat): (r: Outcome<seq<DefinitionBlock>>)
    requires k <= |s.definitions|
    ensures r.Returns? ==> |r.value| <= |s.definitions| - k
    ensures r.Panics? ==> exists j | k <= j < |s.definitions| :: BlockFor(doc, s, opts, j).Panics?
    decreases |s.definitions| - k
  {
    if k == |s.definitions| then Returns([])
    else match BlockFor(doc, s, opts, k)
      case Panics(m) => Panics(m)
      case Returns(block) => Anim.Prepend(if block.Some? then [block.value] else [], BlocksFrom(doc, s, opts, k + 1))
  }

  /** The tables of the sequences from `i` on. */
  function TablesFrom(doc: Document, sequences: seq<InkWrapper<Anim.InkAnimSequence>>, opts: Options, i: nat): (r: Outcome<seq<SequenceTable>>)
    requires i <= |sequences|
    ensures r.Panics? ==> exists j | i <= j < |sequences| :: BlocksFrom(doc, sequences[j].data, opts, 0).Panics?
    decreases |sequences| - i
  {
    if i == |sequences| then Returns([])
    else match BlocksFrom(doc, sequences[i].data, opts, 0)
      case Panics(m) => Panics(m)
      case Returns(blocks) => Anim.Prepend([SequenceTable(sequences[i].data.name, blocks)], TablesFrom(doc, sequences, opts, i + 1))
  }

  function Tables(doc: Document, anim: Anim.InkAnimAnimationLibraryResource, opts: Options): Outcome<seq<SequenceTable>> {
    TablesFrom(doc, anim.sequences, opts, 0)
  }

  /** The loops shared by the three listings: sequences outside, definitions inside. */
  method BuildTables(doc: Document, anim: Anim.InkAnimAnimationLibraryResource, opts: Options) returns (r: Outcome<seq<SequenceTable>>)
    ensures r == Tables(doc, anim, opts)
  {
    var tables: seq<SequenceTable> := [];
    Anim.PrependEmpty(TablesFrom(doc, anim.sequences, opts, 0));
    for i := 0 to |anim.sequences|
      invariant Tables(doc, anim, opts) == Anim.Prepend(tables, TablesFrom(doc, anim.sequences, opts, i))
    {
      var sequence := anim.sequences[i].data;
      var blocks := BuildBlocks(doc, sequence, opts);
      if blocks.Panics? {
        return Panics(blocks.message);
      }
      var table := SequenceTable(sequence.name, blocks.value);
      Anim.PrependTwice(tables, [table], TablesFrom(doc, anim.sequences, opts, i + 1));
      tables := tables + [table];
    }
    assert tables + [] == tables;
    return Returns(tables);
  }

  /** The body of the inner loop: definition `k`'s block, skipped (`continue`) when nothing is kept or the path filter refuses it. */
  method ShowDefinition(doc: Document, sequence: Anim.InkAnimSequence, opts: Options, k: nat) returns (r: Outcome<Option<DefinitionBlock>>)
    requires k < |sequence.definitions|
    ensures r == BlockFor(doc, sequence, opts, k)
  {
    var definition := sequence.definitions[k];
    var interpolators := Kept(definition.data.interpolators, opts.filterByType);
    if |interpolators| == 0 {
      return Returns(None);
    }
    if k >= |sequence.targets| {
      return Panics(NoTarget);
    }
    var infos := PathOf(sequence.targets[k]);
    if opts.filterByPath.Some? {
      var passes := false;
      if infos.Some? {
        passes := Anim.SameOrNested(infos.value, opts.filterByPath.value);
      }
      if !passes {
        return Returns(None);
      }
    }
    var location := Location(doc, infos, opts.showPathNames);
    if location.Panics? {
      return Panics(location.message);
    }
    return Returns(Some(DefinitionBlock(k, definition.handleId, location.value, interpolators)));
  }

  /** The inner loop of the listing: one block per shown definition of `sequence`. */
  method BuildBlocks(doc: Document, sequence: Anim.InkAnimSequence, opts: Options) returns (r: Outcome<seq<DefinitionBlock>>)
    ensures r == BlocksFrom(doc, sequence, opts, 0)
  {
    var blocks: seq<DefinitionBlock> := [];
    Anim.PrependEmpty(BlocksFrom(doc, sequence, opts, 0));
    for k := 0 to |sequence.definitions|
      invariant BlocksFrom(doc, sequence, opts, 0) == Anim.Prepend(blocks, BlocksFrom(doc, sequence, opts, k))
    {
      var shown := ShowDefinition(doc, sequence, opts, k);
      if shown.Panics? {
        return Panics(shown.message);
      }
      var block: seq<DefinitionBlock> := if shown.value.Some? then [shown.value.value] else [];
      Anim.PrependTwice(blocks, block, BlocksFrom(doc, sequence, opts, k + 1));
      blocks := blocks + block;
    }
    assert blocks + [] == blocks;
    return Returns(blocks);
  }

  /** `From<DualResources>` in src/main.rs: the counts must match, and names come from the earlier tree. */
  method FromDualResources(widget: EarlyTree.inkWidgetLibraryResource, anim: Anim.InkAnimAnimationLibraryResource, opts: Options)
    returns (r: Outcome<seq<SequenceTable>>)
    ensures |anim.sequences| != |widget.libraryItems| ==> r == Panics(LengthsMustMatch)
    ensures |anim.sequences| == |widget.libraryItems| ==> r == Tables(Early(widget), anim, opts)
  {
    if |anim.sequences| != |widget.libraryItems| {
      return Panics(LengthsMustMatch);
    }
    r := BuildTables(Early(widget), anim, opts);
  }

  /**
   * `into_table` in src/list/mod.rs and crates/cli/src/list/mod.rs: no count
   * check, and names come from the later tree.
   */
  method IntoTable(widget: Widget.inkWidgetLibraryResource, anim: Anim.InkAnimAnimationLibraryResource, opts: Options)
    returns (r: Outcome<seq<SequenceTable>>)
    ensures r == Tables(Later(widget), anim, opts)
  {
    r := BuildTables(Later(widget), anim, opts);
  }

  /// Properties

  /** Table `t` is sequence `i`'s: named after it and holding its blocks. */
  predicate TableOf(doc: Document, sequences: seq<InkWrapper<Anim.InkAnimSequence>>, opts: Options, i: nat, t: SequenceTable)
    requires i < |sequences|
  {
    t.sequenceName == sequences[i].data.name && BlocksFrom(doc, sequences[i].data, opts, 0) == Returns(t.blocks)
  }

  /** One table per sequence, in sequence order, each named after its sequence and holding its blocks. */
  lemma {:induction false} OneTablePerSequence(doc: Document, sequences: seq<InkWrapper<Anim.InkAnimSequence>>, opts: Options, i: nat)
    requires i <= |sequences|
    ensures var r := TablesFrom(doc, sequences, opts, i);
      r.Returns? ==>
        |r.value| == |sequences| - i &&
        forall j | 0 <= j < |r.value| :: TableOf(doc, sequences, opts, i + j, r.value[j])
    decreases |sequences| - i
  {
    if i < |sequences| && TablesFrom(doc, sequences, opts, i).Returns? {
      OneTablePerSequence(doc, sequences, opts, i + 1);
      TablesFromStep(doc, sequences, opts, i);
      var all: seq<SequenceTable> := TablesFrom(doc, sequences, opts, i).value;
      var rest: seq<SequenceTable> := TablesFrom(doc, sequences, opts, i + 1).value;
      assert TableOf(doc, sequences, opts, i, all[0]);
      forall j | 1 <= j < |all| ensures TableOf(doc, sequences, opts, i + j, all[j]) {
        assert all[j] == rest[j - 1];
        assert i + j == (i + 1) + (j - 1);
      }
    }
  }

  /** One step of the tables: the table of sequence `i`, then the rest. */
  lemma TablesFromStep(doc: Document, sequences: seq<InkWrapper<Anim.InkAnimSequence>>, opts: Options, i: nat)
    requires i < |sequences| && TablesFrom(doc, sequences, opts, i).Returns?
    ensures BlocksFrom(doc, sequences[i].data, opts, 0).Returns? && TablesFrom(doc, sequences, opts, i + 1).Returns?
    ensures TablesFrom(doc, sequences, opts, i).value ==
      [SequenceTable(sequences[i].data.name, BlocksFrom(doc, sequences[i].data, opts, 0).value)] + TablesFrom(doc, sequences, opts, i + 1).value
  {
  }

  /** What one shown block says about its definition and target. */
  predicate BlockOf(s: Anim.InkAnimSequence, opts: Options, b: DefinitionBlock) {
    b.definitionIndex < |s.definitions| &&
    b.definitionHandleId == s.definitions[b.definitionIndex].handleId &&
    b.interpolators == Kept(s.definitions[b.definitionIndex].data.interpolators, opts.filterByType) &&
    |b.interpolators| > 0 &&
    b.definitionIndex < |s.targets| &&
    PassesPathFilter(opts.filterByPath, PathOf(s.targets[b.definitionIndex]))
  }

  /** One step of the blocks: the block of definition `k`, if shown, then the rest. */
  lemma BlocksFromStep(doc: Document, s: Anim.InkAnimSequence, opts: Options, k: nat)
    requires k < |s.definitions| && BlocksFrom(doc, s, opts, k).Returns?
    ensures BlockFor(doc, s, opts, k).Returns? && BlocksFrom(doc, s, opts, k + 1).Returns?
    ensures var b := BlockFor(doc, s, opts, k).value;
      BlocksFrom(doc, s, opts, k).value == (if b.Some? then [b.value] else []) + BlocksFrom(doc, s, opts, k + 1).value
    ensures var b := BlockFor(doc, s, opts, k).value;
      b.Some? ==> b.value.definitionIndex == k
  {
  }

  /** Every shown block is a definition from `k` on that keeps an interpolator, has a target and passes the path filter. */
  lemma {:induction false} BlocksSound(doc: Document, s: Anim.InkAnimSequence, opts: Options, k: nat)
    requires k <= |s.definitions| && BlocksFrom(doc, s, opts, k).Returns?
    ensures forall b | b in BlocksFrom(doc, s, opts, k).value :: BlockOf(s, opts, b) && k <= b.definitionIndex
    decreases |s.definitions| - k
  {
    if k < |s.definitions| {
      BlocksFromStep(doc, s, opts, k);
      BlocksSound(doc, s, opts, k + 1);
    }
  }

  /** Blocks strictly increasing in definition index. */
  predicate Ordered(bs: seq<DefinitionBlock>) {
    forall j1, j2 | 0 <= j1 < j2 < |bs| :: bs[j1].definitionIndex < bs[j2].definitionIndex
  }

  lemma OrderedCons(b: DefinitionBlock, rest: seq<DefinitionBlock>)
    requires Ordered(rest) && forall r | r in rest :: b.definitionIndex < r.definitionIndex
    ensures Ordered([b] + rest)
  {
    var bs := [b] + rest;
    forall j1, j2 | 0 <= j1 < j2 < |bs| ensures bs[j1].definitionIndex < bs[j2].definitionIndex {
      assert bs[j2] == rest[j2 - 1] && rest[j2 - 1] in rest;
      if j1 > 0 {
        assert bs[j1] == rest[j1 - 1];
      }
    }
  }

  /** Blocks come in definition order, at most one per definition. */
  lemma {:induction false} BlocksOrdered(doc: Document, s: Anim.InkAnimSequence, opts: Options, k: nat)
    requires k <= |s.definitions| && BlocksFrom(doc, s, opts, k).Returns?
    ensures Ordered(BlocksFrom(doc, s, opts, k).value)
    decreases |s.definitions| - k
  {
    if k < |s.definitions| {
      BlocksFromStep(doc, s, opts, k);
      BlocksOrdered(doc, s, opts, k + 1);
      BlocksSound(doc, s, opts, k + 1);
      var rest := BlocksFrom(doc, s, opts, k + 1).value;
      var b := BlockFor(doc, s, opts, k).value;
      if b.Some? {
        OrderedCons(b.value, rest);
      } else {
        assert [] + rest == rest;
      }
    }
  }

  /**
   * Every definition from `k` on that keeps an interpolator, and whose
   * target passes the path filter, is shown; and when the listing does not
   * panic, every definition that keeps an interpolator has a target.
   */
  lemma {:induction false} BlocksComplete(doc: Document, s: Anim.InkAnimSequence, opts: Options, k: nat, d: nat)
    requires k <= d < |s.definitions| && BlocksFrom(doc, s, opts, k).Returns?
    requires |Kept(s.definitions[d].data.interpolators, opts.filterByType)| > 0
    ensures d < |s.targets|
    ensures PassesPathFilter(opts.filterByPath, PathOf(s.targets[d])) ==>
      exists b | b in BlocksFrom(doc, s, opts, k).value :: b.definitionIndex == d
    decreases |s.definitions| - k
  {
    BlocksFromStep(doc, s, opts, k);
    var bs := BlocksFrom(doc, s, opts, k).value;
    if k == d {
      if PassesPathFilter(opts.filterByPath, PathOf(s.targets[d])) {
        assert bs[0].definitionIndex == d;
      }
    } else {
      BlocksComplete(doc, s, opts, k + 1, d);
      if PassesPathFilter(opts.filterByPath, PathOf(s.targets[d])) {
        var b :| b in BlocksFrom(doc, s, opts, k + 1).value && b.definitionIndex == d;
        assert b in bs;
      }
    }
  }

  /** With the counts equal, the first library item always exists, so the `expect("Root")` lookups never panic. */
  lemma {:induction false} NoRootPanicWithItems(widget: EarlyTree.inkWidgetLibraryResource, sequences: seq<InkWrapper<Anim.InkAnimSequence>>, opts: Options, i: nat)
    requires i <= |sequences| && |widget.libraryItems| > 0
    ensures TablesFrom(Early(widget), sequences, opts, i).Panics? ==> TablesFrom(Early(widget), sequences, opts, i).message != "Root"
    decreases |sequences| - i
  {
    if i < |sequences| {
      NoRootPanicWithItems(widget, sequences, opts, i + 1);
      NoRootPanicInBlocks(widget, sequences[i].data, opts, 0);
    }
  }

  lemma {:induction false} NoRootPanicInBlocks(widget: EarlyTree.inkWidgetLibraryResource, s: Anim.InkAnimSequence, opts: Options, k: nat)
    requires k <= |s.definitions| && |widget.libraryItems| > 0
    ensures BlocksFrom(Early(widget), s, opts, k).Panics? ==> BlocksFrom(Early(widget), s, opts, k).message != "Root"
    decreases |s.definitions| - k
  {
    if k < |s.definitions| {
      NoRootPanicInBlocks(widget, s, opts, k + 1);
      NoRootPanicInBlock(widget, s, opts, k);
    }
  }

  /** One definition's block, in the earliest listing with a first library item, never fails with "Root". */
  lemma NoRootPanicInBlock(widget: EarlyTree.inkWidgetLibraryResource, s: Anim.InkAnimSequence, opts: Options, k: nat)
    requires k < |s.definitions| && |widget.libraryItems| > 0
    ensures BlockFor(Early(widget), s, opts, k).Panics? ==> BlockFor(Early(widget), s, opts, k).message != "Root"
  {
    if BlockFor(Early(widget), s, opts, k).Panics? && k < |s.targets| {
      var infos := PathOf(s.targets[k]);
      if infos.Some? && opts.showPathNames {
        var inst := EarlyTree.RootChunk(widget).value;
        EarlyTree.NamesFromPanics(EarlyTree.WalkStart(inst), infos.value);
        if EarlyTree.PathNames(inst, infos.value).Panics? {
          var j :| 0 <= j < |infos.value| && EarlyTree.PathNames(inst, infos.value).message == EarlyTree.UnexpectedMultiChildrenAt(infos.value[j]);
          assert |EarlyTree.UnexpectedMultiChildrenAt(infos.value[j])| > 4;
        }
      }
    }
  }

  /** src/main.rs never fails on a missing first library item: the count check comes first. */
  lemma CountCheckRulesOutMissingRoot(widget: EarlyTree.inkWidgetLibraryResource, anim: Anim.InkAnimAnimationLibraryResource, opts: Options)
    requires |anim.sequences| == |widget.libraryItems|
    ensures Tables(Early(widget), anim, opts).Panics? ==> Tables(Early(widget), anim, opts).message != "Root"
  {
    if |anim.sequences| > 0 {
      NoRootPanicWithItems(widget, anim.sequences, opts, 0);
    }
  }

  /** The later listings do fail on a missing first library item, as soon as a shown target has a path. */
  lemma LaterListingNeedsRoot(widget: Widget.inkWidgetLibraryResource, s: Anim.InkAnimSequence, opts: Options, k: nat)
    requires k < |s.definitions| && |widget.libraryItems| == 0
    requires |Kept(s.definitions[k].data.interpolators, opts.filterByType)| > 0
    requires k < |s.targets| && s.targets[k].WithHandleId?
    requires PassesPathFilter(opts.filterByPath, PathOf(s.targets[k]))
    ensures BlockFor(Later(widget), s, opts, k) == Panics("Root")
  {
  }
}
