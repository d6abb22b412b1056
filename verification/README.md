# inkanim core, modelled in Dafny

inkanim reads the JSON exports that WolvenKit makes of Cyberpunk 2077 ink
widget libraries (`.inkwidget`) and ink animation libraries (`.inkanim`),
and answers questions about them on the command line. This model covers its
core:

- the widget document: the eighteen widget kinds, their fields and the
  defaults that decide which fields are written out;
- the walks over the widget tree: by index, by name, the widget kind, the
  names along an index path, and the indexes along a name path, in both the
  earlier and the later tree;
- the animation side: interpolators, their filter kinds and command-line
  spellings, and the selection of targets whose widget path lies below a
  searched path (three versions);
- the listing that joins the two documents into one table per animation
  sequence;
- the two command-line path parsers;
- the hand-written JSON decoders for `CName`, `ResourcePath`, `LocKey` and
  the animation `Range`;
- the Redscript text that the `RedsWidget` and `RedsValue` derive macros
  generate.

Every panic of the source (`expect`, `unwrap`, a `panic!`, the debug-build
underflow of `len() - 1` on an empty path, an out-of-range slice) is an
explicit outcome, `Outcome.Panics(message)`, never a precondition. Loops in
the source are Dafny methods with loop invariants, each proved equal to a
recursive specification function; the properties are lemmas about those
functions. Rust's fixed-width integers and `as` casts are written out
(module `Numeric`). `f32` is `real`.

Where the source of `main.rs` and the later list modules disagree, each is
modelled as written: the earliest listing checks that the two documents have
as many sequences as library items and panics otherwise, while the later ones
do not check this and panic on a missing first library item
(`Listing.CountCheckRulesOutMissingRoot`, `Listing.LaterListingNeedsRoot`).

Modules, one per file: `Wrappers`, `Numeric`, `Text` (string helpers of the
Rust standard library), `Ink`, `Reds`, `WidgetBase`, `Layout`, `Image`,
`Font`, `Properties`, `Widget`, `Tree`, `EarlyTree`, `Filters`, `Anim`,
`EarlyAnim`, `TypesAnim`, `Listing`, `Args`, `Codec`.

## Model

| member | source | states |
|---|---|---|
| Numeric.AsU32 | src/ink/conversion.rs:130-135 | `v as u32` keeps the value modulo 2^32 and leaves a value already in range unchanged |
| Numeric.AsI32 | src/ink/conversion.rs:228-233 | `v as i32` keeps the value modulo 2^32 read in two's complement, and leaves a value already in range unchanged |
| Numeric.AsI32ThroughU32 | src/ink/conversion.rs:249-254 | casting a `u64` to `u32` and then to `i32` gives the same as casting it straight to `i32` |
| Ink.SerializeName | crates/types/src/ink/mod.rs:28-41 | a name serialises as the string `as_str` returns, its `$value` |
| Ink.Resource | crates/types/src/ink/mod.rs:121-125 | `resource` is the root chunk; it has no contract of its own, and `Ink.ResourceIgnoresEnvelope` states what it depends on |
| Ink.SerializeWrapper | crates/types/src/ink/mod.rs:188-198 | a wrapper serialises as its data alone; it has no contract of its own, and `Ink.WrapperSerializationDropsHandle` states that the handle id is dropped |
| Ink.NameSerializationKeepsOnlyValue | crates/types/src/ink/mod.rs:28-35 | two names serialise alike exactly when their `$value`s agree, whatever `$type` and `$storage` hold |
| Ink.ResourceIgnoresEnvelope | crates/types/src/ink/mod.rs:121-125 | `resource` depends on the root chunk alone, not on the header or the version fields |
| Ink.WrapperEq | crates/types/src/ink/mod.rs:211-219 | wrapper equality holds exactly when the handle ids and the data both agree |
| Ink.WrapperSerializationDropsHandle | crates/types/src/ink/mod.rs:188-198 | wrappers with the same data serialise alike whatever their handle ids |
| Ink.SerializeLocKey | crates/types/src/ink/mod.rs:237-247 | a key serialises untagged, as a bare number exactly when it is an id and as a bare string otherwise |
| Ink.LocKeyEq | crates/types/src/ink/mod.rs:249-258 | equal keys compare equal, and keys of the same variant compare equal exactly when they are the same key |
| Ink.LocKeyEqAcrossVariants | crates/types/src/ink/mod.rs:249-258 | `ID(n)` equals `Value(s)`, in either order, exactly when `s` is the decimal rendering of `n` |
| Ink.LocKeyEqIsEquivalence | crates/types/src/ink/mod.rs:249-258 | key equality is reflexive, symmetric and transitive despite its cross-variant case |
| Ink.EqualToDefaultLocKey | crates/types/src/ink/mod.rs:231-258 | the keys equal to the default `ID(0)` are exactly `ID(0)` and `Value("0")` |
| Ink.NoIdEqualsEmptyString | crates/types/src/ink/mod.rs:249-258 | the only key equal to `Value("")` is `Value("")` itself |
| Ink.SerializeLocalizationString | crates/types/src/ink/mod.rs:267-283 | a localisation string serialises either as none or as some of its own key, and an absent key always as none |
| Ink.IsAnyDefaultLocalizationString | crates/types/src/ink/mod.rs:285-294 | the default test; it has no contract of its own, and `Ink.DefaultLocalizationStringsSerializeAsNone` states which strings it accepts |
| Ink.SerializedAsNone | crates/types/src/ink/mod.rs:267-283 | a localisation string serialises as none exactly when it is none, `ID(0)`, `Value("")` or `Value("0")` |
| Ink.DefaultLocalizationStringsSerializeAsNone | crates/types/src/ink/mod.rs:267-294 | `is_any_default_localization_string` accepts exactly none, `ID(0)` and `Value("")`, and each of them serialises as none |
| Ink.StringZeroIsNotDefaultButSerializesAsNone | crates/types/src/ink/mod.rs:267-294 | `Value("0")` is rejected by the default test yet serialises as none |
| Reds.RedsWidget | macros/src/lib.rs:29-50 | the generated `reds_widget` pushes the construction line, one assignment per field with a value and the optional `AddChild` line, then joins them with newlines |
| Reds.WidgetSteps | macros/src/lib.rs:33-48 | the statements `reds_widget` joins; it has no contract of its own, and `Reds.WidgetStepsShape` and `Reds.AssignmentOfField` state their order and content |
| Reds.AssignmentsCount | macros/src/lib.rs:38-42 | one assignment is emitted per field whose `reds_value` is some |
| Reds.WidgetStepsShape | macros/src/lib.rs:36-46 | the construction line comes first, the assignments follow in field order, and `AddChild` comes last exactly when a parent is given |
| Reds.AssignmentOfField | macros/src/lib.rs:38-42 | the assignment of field k names that field and its value, and sits after the assignments of the earlier fields that have one |
| Reds.AllDefaultFieldsEmitNoAssignment | macros/src/lib.rs:36-46 | with every field at its default only the construction line and the optional `AddChild` remain |
| Reds.StructValue | macros/src/lib.rs:76-91 | a struct's `reds_value` is none exactly when the struct equals its default |
| Reds.PairArguments | macros/src/lib.rs:84-88 | a two-field struct renders as `new NAME(a, b)`, an absent argument rendering as the empty string |
| Reds.BuildStructValue | macros/src/lib.rs:53-92 | the push-and-join loop of the generated `reds_value` (named or tuple fields) gives the struct rendering |
| Reds.EnumValue | macros/src/lib.rs:95-119 | an enum's `reds_value` is none exactly for the default variant, and `NAME.Variant` otherwise |
| Reds.DeriveRedsWidget | macros/src/lib.rs:5-14 | `RedsWidget` derives exactly on structs |
| Reds.DeriveRedsValue | macros/src/lib.rs:16-26 | `RedsValue` derives on structs and on enums whose variants all lack fields, and on nothing else |
| Reds.F32Value | src/lib.rs:18-26 | the `f32` rendering is always some: a whole number gets a trailing ".", any other value keeps its own rendering |
| Reds.F32Examples | src/lib.rs:18-26 | 2 renders as "2.", 0 as "0." (zero is not elided) and -3 as "-3." |
| Reds.WholeFloatRenderingIsInjective | src/lib.rs:20-21 | distinct non-negative whole floats render differently |
| WidgetBase.FlagsOrder | crates/types/src/ink/widget/mod.rs:34-41 | the derived order is `Default` < `Soft` < `Hard`, and the declaration lists every variant in discriminant order |
| WidgetBase.PivotDefaultIsCentre | crates/types/src/ink/widget/mod.rs:43-54 | the pivot default is (0.5, 0.5), so a pivot at the origin is not a default |
| Layout.AnchorDiscriminants | src/ink/widget/layout.rs:8-26 | the anchor variants carry discriminants 0 to 15 in declaration order, and every variant is listed |
| Layout.HorizontalAlignDiscriminants | src/ink/widget/layout.rs:34-40 | horizontal alignments are numbered 0 to 3 in declaration order, and every variant is listed |
| Layout.VerticalAlignDiscriminants | src/ink/widget/layout.rs:48-54 | vertical alignments are numbered 0 to 3 in declaration order, and every variant is listed |
| Layout.JustificationDiscriminants | src/ink/widget/layout.rs:75-80 | justifications are numbered 0 to 2 in declaration order, and every variant is listed |
| Layout.ChildOrderDiscriminants | src/ink/widget/layout.rs:122-126 | child orders are numbered 0 and 1 in declaration order, and every variant is listed |
| Layout.SizeRuleDiscriminants | src/ink/widget/layout.rs:134-138 | size rules are numbered 0 and 1 in declaration order, and every variant is listed |
| Layout.AnchorValue | src/ink/widget/layout.rs:7-30 | the anchor renders as none exactly when it is `TopLeft`, otherwise as `inkEAnchor.Variant` |
| Layout.HorizontalAlignValue | src/ink/widget/layout.rs:33-44 | none exactly for `Fill`, otherwise `inkEHorizontalAlign.Variant` |
| Layout.VerticalAlignValue | src/ink/widget/layout.rs:47-58 | none exactly for `Fill`, otherwise `inkEVerticalAlign.Variant` |
| Layout.JustificationValue | src/ink/widget/layout.rs:74-84 | none exactly for `Left`, otherwise `textJustificationType.Variant` |
| Layout.ChildOrderValue | src/ink/widget/layout.rs:121-130 | none exactly for `Forward`, otherwise `inkEChildOrder.Variant` |
| Layout.SizeRuleValue | src/ink/widget/layout.rs:133-142 | none exactly for `Fixed`, otherwise `inkESizeRule.Variant` |
| Layout.ChildOrderRendering | src/ink/widget/layout.rs:121-130 | `Backward` renders as "inkEChildOrder.Backward" and the default `Forward` as none |
| Layout.AnchorRenderingIsInjective | src/ink/widget/layout.rs:7-30 | two anchors with the same rendering are the same anchor |
| Layout.MarginValue | src/ink/widget/layout.rs:86-98 | a margin renders as none exactly when all four sides are zero |
| Layout.TransformValue | src/ink/widget/layout.rs:60-71 | a transform renders as none exactly when it equals the derived default |
| Layout.LayoutValue | src/ink/widget/layout.rs:100-118 | a layout renders as none exactly when it equals the derived default |
| Layout.FieldOrders | src/ink/widget/layout.rs:62-114 | arguments come in declaration order: left, right, top, bottom; translation, scale, shear, rotation; padding through size_rule |
| Layout.AnchorOnlyLayout | src/ink/widget/layout.rs:100-118 | a layout differing from the default only in its anchor keeps all eight argument positions, with empty text for default parts and "0." for the zero float |
| Image.BrushOrders | crates/types/src/ink/widget/image.rs:16-38 | the derived order is `NoMirror` < `Horizontal` < `Vertical` < `Both`, likewise for tiles, and every variant is listed |
| Image.DefaultsAreLeast | crates/types/src/ink/widget/image.rs:16-38 | each default variant is the least value of its derived order |
| Image.MirrorTypeValue | src/ink/widget/image.rs:20-32 | none exactly for `NoMirror`, otherwise `inkBrushMirrorType.Variant` |
| Image.TileTypeValue | src/ink/widget/image.rs:34-46 | none exactly for `NoTile`, otherwise `inkBrushTileType.Variant` |
| Font.FontFamilyValue | src/ink/widget/font.rs:8-18 | the font family, whose depot path is a `Name`, renders as none exactly when default, otherwise `new inkFontFamilyResource(depot_path, flags)` in that order |
| Font.FontStyleValue | src/ink/widget/font.rs:20-26 | the font style renders as none exactly when default, otherwise `new fontStyle(name)` with its one positional field |
| Font.TextEnumsFollowDeclaration | crates/types/src/ink/widget/font.rs:20-57 | the four text enums are numbered 0, 1, … in declaration order, which is their derived order, and every variant is listed |
| Font.VerticalAlignmentDefaultIsMiddle | crates/types/src/ink/widget/font.rs:38-45 | the vertical alignment defaults to its middle variant, the other text enums to their first |
| Properties.BindingValue | src/ink/widget/properties.rs:6-16 | a binding renders as none exactly when default, otherwise `new inkPropertyBinding(property_name, style_path)` |
| Properties.ManagerValue | src/ink/widget/properties.rs:18-27 | a manager renders as none exactly when it has no bindings, otherwise `new inkPropertyManager(bindings)` |
| Properties.PropertyManagerValue | src/ink/widget/properties.rs:29-38 | none exactly when the handle id is 0 and there are no bindings, otherwise `new PropertyManager(handle_id, data)` |
| Properties.ManagerSerialized | crates/types/src/ink/widget/properties.rs:35-46 | a manager serialises as a sequence with one element per binding, in order |
| Properties.SerializeManager | crates/types/src/ink/widget/properties.rs:35-46 | the loop that feeds each binding to the sequence gives that sequence |
| Properties.SerializePropertyManager | crates/types/src/ink/widget/properties.rs:55-62 | a property manager serialises as its manager data alone, whatever its handle id |
| Properties.PropertyManagerSerializationDropsHandle | crates/types/src/ink/widget/properties.rs:55-62 | property managers with the same data serialise alike whatever their handle ids |
| Properties.BindingSerializationKeepsValues | crates/types/src/ink/widget/properties.rs:16-26 | two bindings serialise alike exactly when both their names' `$value`s agree |
| Properties.SerializeBinding | crates/types/src/ink/widget/properties.rs:16-26 | a binding serialises as a struct with `propertyName` then `stylePath`; it has no contract of its own, and `Properties.BindingSerializationKeepsValues` states what it keeps |
| Widget.VariantIndex | crates/types/src/ink/widget/mod.rs:214-235 | each widget's variant sits at one position of the declaration, and its class name is the name declared there; position 0 is the children wrapper, 1-8 the compounds, 9-17 the leaves |
| Widget.EighteenKinds | crates/types/src/ink/widget/mod.rs:214-235 | `Widget` has eighteen variants, with pairwise distinct names |
| Widget.ClassnameIdentifiesVariant | src/ink/widget/implementation.rs:91-116 | two widgets have the same class name exactly when they are of the same variant |
| Widget.Classname | src/ink/widget/implementation.rs:91-116 | a class name is one of the eighteen variant names, and is `inkMultiChildren` exactly for that variant |
| Widget.Children | src/ink/widget/implementation.rs:12-59 | `children` lists one widget per child node, each the node's data with its handle dropped, in order |
| Widget.WalkStart | src/ink/widget/implementation.rs:240-242 | every walk starts from an `inkMultiChildren` holding exactly the root canvas's children |
| Widget.Root | src/ink/widget/implementation.rs:500-502 | `root` panics exactly when the resource has no library items, and otherwise returns the first one |
| Widget.RootChunk | src/ink/widget/implementation.rs:503-505 | `root_chunk` panics exactly when there is no library item, and otherwise returns the root chunk of the first item's package |
| Widget.Written | crates/types/src/ink/widget/mod.rs:56-100 | serialisation writes at most the declared fields |
| Widget.WrittenKeys | crates/types/src/ink/widget/mod.rs:56-100 | a key is written exactly when some field with that key is not skipped by its `skip_serializing_if` |
| Widget.KeyWritten | crates/types/src/ink/widget/mod.rs:56-100 | a key that occurs once is written exactly when its field is not skipped |
| Widget.AllSkippedWritesNothing | crates/types/src/ink/widget/mod.rs:56-100 | when every field is at its default, nothing is written |
| Widget.CompoundSkipsDefaults | crates/types/src/ink/widget/mod.rs:56-73 | a compound writes `children`, `name`, `childOrder` and `childMargin` each exactly when it differs from its type's default |
| Widget.CompoundEntries | crates/types/src/ink/widget/mod.rs:56-73 | a compound declares four fields, each with its own key |
| Widget.LeafEntries | crates/types/src/ink/widget/mod.rs:75-100 | a leaf declares six fields, each with its own key |
| Widget.OriginPivotIsWritten | crates/types/src/ink/widget/mod.rs:43-54 | a leaf writes its pivot exactly when the pivot is not the centre (0.5, 0.5), so the origin is written |
| Widget.LocalizationStringSkipRule | crates/types/src/ink/widget/mod.rs:151-153 | a text widget's localisation string is skipped exactly when `is_any_default_localization_string` holds, and the key `"0"` is among the skipped ones |
| Widget.TextEntries | crates/types/src/ink/widget/mod.rs:150-179 | a text widget declares fourteen extra fields, each with its own key |
| Widget.ScrollDefaults | crates/types/src/ink/widget/mod.rs:131-149 | the scroll delay is written exactly when it is not 30, and the scroll speed exactly when it is not 0.2 |
| Widget.ImageExtrasAlwaysWritten | crates/types/src/ink/widget/mod.rs:181-198 | an image widget always writes all fourteen of its extra fields, which carry no skip rule |
| Widget.ImageEntries | crates/types/src/ink/widget/mod.rs:181-198 | an image widget declares fourteen extra fields, each with its own key |
| Widget.MultiChildrenSerialized | crates/types/src/ink/widget/mod.rs:118-129 | `inkMultiChildren` serialises as a sequence as long as its children, each element the serialisation of that child's data |
| Widget.SerializeMultiChildren | crates/types/src/ink/widget/mod.rs:118-129 | the element-by-element serialisation loop builds exactly that sequence |
| Widget.MultiChildrenSerializationDropsHandles | crates/types/src/ink/widget/mod.rs:118-129 | children lists that differ only in handle ids serialise alike |
| Tree.ByIndex | src/ink/widget/implementation.rs:211-236 | a leaf returns itself whatever the index; a widget with children returns a child exactly when the index is in range, and then the child at that index |
| Tree.ByNameOutcome | src/ink/widget/implementation.rs:151-178 | `by_name` returns the first child that is a canvas, text or panel with that name, and its position; it panics exactly when a children wrapper comes before any match, and returns none exactly when neither is met |
| Tree.ByNameFrom | src/ink/widget/implementation.rs:155-177 | a child found from position `from` on sits at its own index in the children and is a named canvas, text or panel with that name; a panic names the searched name |
| Tree.ByNameFindsFirst | src/ink/widget/implementation.rs:151-178 | a matching child with nothing in the way before it is what `by_name` finds, at its own position |
| Tree.ByName | src/ink/widget/implementation.rs:155-177 | the early-return loop over the children computes exactly that search |
| Tree.LeavesOf | src/ink/widget/implementation.rs:184-208 | there are never more summaries than children |
| Tree.LeavesOfAppend | src/ink/widget/implementation.rs:184-208 | summarising keeps the order of the children: a concatenation summarises part by part |
| Tree.LeavesOfMembers | src/ink/widget/implementation.rs:184-208 | a summary is listed exactly when it is the handle id and name of a text, canvas or panel child |
| Tree.Leaves | src/ink/widget/implementation.rs:180-209 | the push loop over the child nodes builds exactly those summaries |
| Tree.GetWidgetKind | src/ink/widget/implementation.rs:239-322 | the walk loop returns the class name the kind walk defines, panicking on a children wrapper and on the empty path |
| Tree.KindFrom | src/ink/widget/implementation.rs:239-322 | a kind the walk finds is one of the widget class names, and never `inkMultiChildren` |
| Tree.LeafAbsorbsTrailingIndices | src/ink/widget/implementation.rs:274-282 | once a leaf is reached, the indices after it are ignored and the answer is a leaf's class name |
| Tree.GetPathNames | src/ink/widget/implementation.rs:324-450 | the walk loop returns the names the name walk defines |
| Tree.NamesFrom | src/ink/widget/implementation.rs:324-450 | on a non-empty path, a successful walk looks up a child at the first index and names it first |
| Tree.PathNames | src/ink/widget/implementation.rs:324-450 | the empty path panics with the subtraction overflow, and a successful walk gives exactly one name per index |
| Tree.NamesMatchPathLength | src/ink/widget/implementation.rs:324-450 | a successful name walk gives exactly one name per index of the path |
| Tree.NamesImplyKind | src/ink/widget/implementation.rs:239-450 | where the name walk returns names, the kind walk returns a class name for the same path |
| Tree.OutOfRangeIndex | src/ink/widget/implementation.rs:244-447 | an out-of-range index makes the name walk give none, while the kind walk skips it and goes on with the same parent |
| Tree.GetPathIndexes | src/ink/widget/implementation.rs:452-496 | the walk loop returns the indexes the index walk, as written, defines |
| Tree.IndexesFrom | src/ink/widget/implementation.rs:452-496 | in the walk as written, a first index found lies among the parent's children and names a child with the first name |
| Tree.PathIndexes | src/ink/widget/implementation.rs:452-496 | the empty path panics with the subtraction overflow, and a successful walk as written gives one index per name, or one fewer when it stops at a leaf |
| Tree.IndexesFromCorrected | src/ink/widget/implementation.rs:452-496 | in the corrected walk, a first index found lies among the parent's children and names a child with the first name |
| Tree.PathIndexesCorrected | src/ink/widget/implementation.rs:452-496 | a successful corrected walk gives exactly one index per name |
| Tree.CorrectedIndexesMatchNames | src/ink/widget/implementation.rs:452-496 | the corrected index walk gives exactly one index per name whenever it succeeds |
| Tree.IndexesAsWrittenVersusCorrected | src/ink/widget/implementation.rs:466-479 | the walk as written gives one index per name, or one fewer when a leaf is reached at the second-to-last name; whenever it gives one per name, the corrected walk agrees |
| Tree.NameAfterLeafIsIgnored | src/ink/widget/implementation.rs:466-479 | with a text widget first under the root, `[its name, anything]` resolves to `[0]` as written, and to none when corrected |
| Tree.NamesThenIndexes | src/ink/widget/implementation.rs:324-496 | along a path of first-named canvas, text and panel widgets, the names the walk gives lead back to the same indexes, both as written and corrected |
| Tree.PathRoundTrip | src/ink/widget/implementation.rs:324-496 | from the root, `get_path_indexes(get_path_names(p)) == p` for such a path |
| EarlyTree.RootChunk | src/main.rs:226-235 | taking the root chunk panics with "Root" exactly when there is no library item, and otherwise gives the first item's root instance |
| EarlyTree.ByIndex | src/ink/widget.rs:151-171 | a text leaf returns itself; a canvas or children wrapper returns a child exactly when the index is in range, and then the child at that index |
| EarlyTree.WalkStart | src/ink/widget.rs:119-123 | the walk starts from an `inkMultiChildren` holding exactly the root canvas's children |
| EarlyTree.GetPathNames | src/ink/widget.rs:119-148 | the walk loop returns the names the earlier name walk defines |
| EarlyTree.NamesFrom | src/ink/widget.rs:124-146 | on a non-empty path, a successful walk looks up a child at the first index, which is not a children wrapper, and names it first |
| EarlyTree.PathNames | src/ink/widget.rs:119-148 | the empty path names nothing, and a successful walk gives at most one name per index |
| EarlyTree.NamesFromPanics | src/ink/widget.rs:136-138 | the walk panics only with the message naming one of the path's indices |
| EarlyTree.EmptyPathNamesNothing | src/ink/widget.rs:119-148 | the empty path gives an empty list of names, not a panic |
| EarlyTree.TextIgnoresTrailingIndices | src/ink/widget.rs:139-142 | once a text leaf is reached, the indices after it change nothing and the walk succeeds |
| EarlyTree.NamesAtMostPathLength | src/ink/widget.rs:119-148 | a successful walk names at most one widget per index, and exactly one per index unless a text leaf came first |
| EarlyTree.TextBeforeEndStillNamed | src/ink/widget.rs:139-142 | with a text leaf first under the root, `[0, k]` names just that leaf |
| EarlyTree.LeavesOfCount | src/ink/widget.rs:173-191 | the summaries list one entry per child that is not a children wrapper |
| EarlyTree.Leaves | src/ink/widget.rs:173-197 | the push loop builds exactly those summaries |
| EarlyTree.LeavesOf | src/ink/widget.rs:173-191 | there are never more summaries than children; `EarlyTree.LeavesOfAppend` and `EarlyTree.LeavesOfMembers` state their order and membership |
| EarlyTree.LeavesOfAppend | src/ink/widget.rs:173-191 | summarising keeps the order of the child nodes: a concatenation summarises part by part |
| EarlyTree.LeavesOfMembers | src/ink/widget.rs:173-191 | a summary is listed exactly when it is the handle id and name of a child node that is a text or canvas (not a children wrapper) |
| Filters.ToPossibleValue | src/ink/mod.rs:54-82 | every interpolator kind has a spelling, with a non-empty primary name |
| Filters.FromWord | src/ink/mod.rs:40-82 | reading a word from a position on finds a listed kind at or after it that spells the word, or reports none exactly when no later listed kind spells it |
| Filters.ParseFilter | src/ink/mod.rs:40-82 | a word reads back as a listed kind that spells it, and as none exactly when no listed kind does |
| Filters.TransparencyFilters | src/ink/mod.rs:11-13 | the three transparency filters are plain transparency, fade in and fade out, and are distinct |
| Filters.ValueVariantsDistinct | src/ink/mod.rs:41-52 | the command line offers eight distinct kinds, among them every transparency filter |
| Filters.TransparencySpellings | src/ink/mod.rs:60-66 | the transparency filters are spelt transparency/opacity/alpha, fadein/fade-in/appear and fadeout/fade-out/disappear |
| Filters.SpellingsDistinct | src/ink/mod.rs:54-82 | no word spells two different listed kinds |
| Filters.SpellingsUnrepeated | src/ink/mod.rs:54-82 | no listed kind has the same word twice among its spellings |
| Filters.ParseSpelling | src/ink/mod.rs:40-82 | every spelling of a listed kind reads back as that kind |
| TypesAnim.GetPathIndexesMatching | crates/types/src/ink/mod.rs:325-348 | the loop over the targets computes exactly the selection, panicking on an empty searched path |
| TypesAnim.SelectedFrom | crates/types/src/ink/mod.rs:329-346 | the selection from target `t` on lists at most one summary per remaining target, each at an index from `t` on |
| TypesAnim.PathIndexesMatching | crates/types/src/ink/mod.rs:325-348 | the selection panics exactly on an empty searched path; otherwise there are at most as many summaries as targets, each at a valid target index |
| TypesAnim.SelectedSound | crates/types/src/ink/mod.rs:325-348 | every summary describes a path-bearing target, with its position, handle id and path, whose path lies below the searched one |
| TypesAnim.SelectedOrdered | crates/types/src/ink/mod.rs:325-348 | summaries come in strictly increasing target order |
| TypesAnim.SelectedComplete | crates/types/src/ink/mod.rs:325-348 | every path-bearing target whose path lies below the searched one is summarised |
| TypesAnim.AgreesWithEarlierSelection | crates/types/src/ink/mod.rs:325-348 | where the earlier selection returns, this one selects the same targets in the same order |
| TypesAnim.SamePicksAppend | crates/types/src/ink/mod.rs:325-348 | two selections that pick the same targets part by part still do so once concatenated |
| TypesAnim.ShortPathsDoNotPanic | crates/types/src/ink/mod.rs:327-335 | a non-empty searched path never panics, and every selected path is at least as long as it |
| Anim.RangeOrderIsStrictTotal | src/ink/anim/mod.rs:98-139 | without NaN, the derived order on `Range` (variant first, then fields in declaration order) is irreflexive, asymmetric, transitive and total |
| Anim.VariantsComeFirst | src/ink/anim/mod.rs:133-139 | every percentage is below every position, and every position below every colour |
| Anim.Ends | src/ink/anim/mod.rs:222-233 | `ends()` exceeds `starts()` by exactly the duration |
| Anim.Starts | src/ink/anim/mod.rs:210-221 | `starts()` is the start delay whatever the kind; it has no contract of its own, and `Anim.Ends` and `Anim.EndsAfterStarts` state its relation to `ends()` |
| Anim.Duration | src/ink/anim/mod.rs:270-281 | `duration()` is the duration whatever the kind; it has no contract of its own, and `Anim.Ends` states that it is the gap between `starts()` and `ends()` |
| Anim.Matches | src/ink/anim/mod.rs:284-317 | an interpolator that matches a filter kind is a transparency interpolator exactly when the kind is a transparency kind |
| Anim.EndsAfterStarts | src/ink/anim/mod.rs:210-281 | an interpolator ends no earlier than it starts exactly when its duration is not negative, and it starts at its start delay |
| Anim.TagOnlyMatching | src/ink/anim/mod.rs:284-317 | a non-transparency interpolator matches exactly its own kind, whatever its values |
| Anim.TransparencyMatching | src/ink/anim/mod.rs:293-306 | a transparency interpolator matches plain transparency always, fade in exactly when its start is below its end, fade out exactly when its start is above its end, and no other kind |
| Anim.FadesAreExclusive | src/ink/anim/mod.rs:293-306 | no transparency interpolator is both a fade in and a fade out, and a flat one is neither |
| Anim.UnlistedKindsNeverMatch | src/ink/anim/mod.rs:284-317 | a filter kind not offered on the command line matches no interpolator |
| Anim.Filtered | src/ink/anim/mod.rs:457-460 | filtering keeps only matching interpolators of the input, and never more than it has |
| Anim.FilteredAppend | src/ink/anim/mod.rs:457-460 | filtering keeps the order: it distributes over concatenation |
| Anim.FilteredKeepsMatches | src/ink/anim/mod.rs:457-460 | every matching interpolator is kept |
| Anim.GetInterpolatorsMatching | src/ink/anim/mod.rs:448-461 | panics exactly when the sequence has no definition, and otherwise returns the matching interpolators of the first one |
| Anim.SameOrNested | src/ink/anim/mod.rs:398-416 | the loop answers true exactly when the searched path is a prefix of the widget's own path |
| Anim.PrefixBasics | src/ink/anim/implementation.rs:6-23 | the empty searched path matches every path, and every path matches itself |
| Anim.PrefixFailures | src/ink/anim/implementation.rs:6-23 | a searched path longer than the path, or differing at a shared position, never matches |
| Anim.PrefixIgnoresTail | src/ink/anim/implementation.rs:6-23 | positions of the path past the searched length never matter |
| Anim.GetPathIndexesMatching | src/ink/anim/mod.rs:419-447 | the loop over targets with its labelled inner loop computes exactly the selection |
| Anim.MatchingFrom | src/ink/anim/mod.rs:423-445 | the selection from target `t` on lists at most one summary per remaining target, each at an index from `t` on |
| Anim.PathIndexesMatching | src/ink/anim/mod.rs:419-447 | an empty searched path panics with the subtraction overflow; otherwise there are at most as many summaries as targets, each at a valid target index |
| Anim.MatchingFromPanics | src/ink/anim/mod.rs:427-430 | the selection panics exactly when some path-bearing target's path is shorter than the searched path and agrees with it as far as it goes |
| Anim.MatchingFromStep | src/ink/anim/mod.rs:423-445 | one target contributes its summary, if any, in front of the rest |
| Anim.MatchingFromSound | src/ink/anim/mod.rs:419-447 | every summary describes a path-bearing target, with its name, position, handle id and path, whose path starts with the searched one |
| Anim.MatchingFromOrdered | src/ink/anim/mod.rs:419-447 | summaries come in strictly increasing target order, so none is listed twice |
| Anim.MatchingFromComplete | src/ink/anim/mod.rs:419-447 | every path-bearing target whose path starts with the searched one is selected |
| Anim.PathIndexesMatchingSpec | src/ink/anim/mod.rs:419-447 | the selection panics exactly on an empty searched path or a target path it runs past, and otherwise lists exactly the matching path-bearing targets |
| EarlyAnim.GetPathIndexesMatching | src/ink/anim.rs:90-118 | the loop computes exactly the earlier selection |
| EarlyAnim.MatchingFrom | src/ink/anim.rs:90-118 | the earlier selection from target `t` on lists at most one summary per remaining target, each at an index from `t` on |
| EarlyAnim.PathIndexesMatching | src/ink/anim.rs:90-118 | an empty searched path panics with the subtraction overflow; otherwise there are at most as many summaries as targets, each at a valid target index |
| EarlyAnim.SameSelectionAsLater | src/ink/anim.rs:90-118 | the earlier selection panics in the same cases as the later one and gives the later summaries without the name |
| EarlyAnim.EarlySelection | src/ink/anim.rs:90-118 | the earlier selection panics exactly on an empty searched path or a target path it runs past, and otherwise lists exactly the matching path-bearing targets with their positions, handle ids and paths |
| Listing.KeptSound | src/main.rs:173-202 | every kept interpolator sits at its recorded position in the definition and passes the type filter |
| Listing.KeptFrom | src/main.rs:173-202 | from position `k` on, at most one interpolator is kept per remaining interpolator |
| Listing.Kept | src/main.rs:173-202 | no more interpolators are kept than the definition has |
| Listing.KeptComplete | src/main.rs:173-202 | every interpolator that passes the type filter is kept, with its own position |
| Listing.KeptWithoutFilter | src/main.rs:191-201 | without a type filter every interpolator is kept, in order, each at its own position |
| Listing.KeptAgreesWithFiltered | src/main.rs:174-190 | with a type filter, the kept interpolators are exactly those `get_interpolators_matching` keeps, in the same order |
| Listing.NamesText | src/main.rs:241-242 | a path whose names do not resolve renders as the empty string |
| Listing.IndexesText | src/main.rs:252-261 | the indexes render as the empty string exactly for the empty path, and a one-index path as that index in decimal |
| Listing.Location | src/main.rs:225-265 | a pathless target shows the empty location; a panic needs a path and either names shown or a later listing; with indexes shown, a location returned is the indexes text |
| Listing.PassesPathFilter | src/main.rs:215-223 | without a path filter every target passes; with one, a passing target has a path that starts with the filter |
| Listing.BlockFor | src/main.rs:172-266 | a definition that keeps no interpolator shows no block; a block shown carries its own definition index and a non-empty list of kept interpolators; a panic is the missing target or a path lookup |
| Listing.BlocksFrom | src/main.rs:172-313 | a sequence gives at most one block per definition, and it panics only where some definition's block panics |
| Listing.TablesFrom | src/main.rs:161-315 | the listing panics only where some sequence's blocks panic |
| Listing.BuildTables | src/main.rs:161-315 | the loop over sequences builds exactly the tables the selection defines, and stops at the first panic |
| Listing.BuildBlocks | src/main.rs:172-313 | the loop over one sequence's definitions builds exactly the blocks the selection defines |
| Listing.ShowDefinition | src/main.rs:172-266 | one pass of the inner loop gives exactly that definition's block: none when it is skipped, a panic when its target or path lookup fails |
| Listing.FromDualResources | src/main.rs:145-318 | the earliest listing panics with "widget and anim lengths must match" exactly when the counts differ, and otherwise builds the tables with names from the earlier tree |
| Listing.IntoTable | src/list/mod.rs:45-238 | the later listings build the tables with no count check, names coming from the later tree |
| Listing.OneTablePerSequence | src/main.rs:161-315 | one table per sequence, in order, each named after its sequence and holding that sequence's blocks |
| Listing.TablesFromStep | src/main.rs:161-315 | when the listing returns, the table of sequence `i` comes first, named after it and holding its blocks, followed by the tables of the later sequences |
| Listing.BlocksFromStep | src/main.rs:172-313 | a definition contributes at most one block, carrying its own index, in front of the rest |
| Listing.BlocksSound | src/main.rs:172-266 | every block shown is a definition that keeps an interpolator, has a target and passes the path filter, and it carries that definition's index, handle and kept interpolators |
| Listing.BlocksOrdered | src/main.rs:172-313 | blocks come in strictly increasing definition order |
| Listing.BlocksComplete | src/main.rs:203-223 | when the listing does not panic, every definition that keeps an interpolator has a target, and it is shown when its target passes the path filter |
| Listing.NoRootPanicWithItems | src/main.rs:225-236 | with a first library item present, the listing never panics with "Root" |
| Listing.NoRootPanicInBlocks | src/main.rs:225-236 | with a first library item present, no definition's block panics with "Root" |
| Listing.NoRootPanicInBlock | src/main.rs:225-236 | with a first library item present, a single definition's block never panics with "Root" |
| Listing.CountCheckRulesOutMissingRoot | src/main.rs:154-236 | once the counts match, the earliest listing never panics with "Root" |
| Listing.LaterListingNeedsRoot | src/list/mod.rs:162-172 | without library items, the later listing panics with "Root" at the first shown target that has a path, even when names are not shown |
| Text.Split | src/args.rs:76 | `split` on the separator characters gives one piece more than there are separators, and no piece holds a separator |
| Text.SplitWithoutSeparator | src/args.rs:76 | a string with no separator splits into itself alone |
| Text.SplitAtSeparator | src/args.rs:76 | splitting at a first separator gives the part before it, then the pieces of the rest |
| Text.IsWhitespace | src/args.rs:77 | the whitespace `trim` drops, `char::is_whitespace`; it has no contract of its own, and `Text.TrimFramed` states how `trim` uses it |
| Text.Trim | src/args.rs:77 | a trimmed string neither starts nor ends with whitespace |
| Text.TrimFramed | src/args.rs:77 | trimming a word framed by whitespace gives back exactly the word |
| Text.ParseUnsigned | src/args.rs:77 | `parse::<usize>()` succeeds only with a value that fits the type, on a string starting with a digit or `+` |
| Text.ParseDecimal | src/args.rs:77 | parsing gives back any number rendered in decimal exactly when it fits |
| Args.ParsePathNames | src/args.rs:81-86 | `parse_path_names` gives one piece more than there are separators, each piece free of separators and trimmed at both ends |
| Args.ParseAllSpec | src/args.rs:74-79 | parsing panics with "digit" exactly when some trimmed piece is not a `usize`, and otherwise gives one index per piece, each the value of its piece |
| Args.ParseAll | src/args.rs:76-77 | parsing the pieces panics only with "digit", and otherwise gives one index per piece |
| Args.ParsePathIndexes | src/args.rs:74-79 | `parse_path_indexes` panics only with "digit", and otherwise gives one index more than there are separators |
| Args.EmptyArgument | src/args.rs:74-86 | the empty argument names a single empty widget and panics as a path of indexes |
| Args.NamesRoundTrip | src/args.rs:81-86 | non-empty names without separators or outer whitespace, joined by a separator padded with whitespace, parse back to the same names |
| Args.DecimalIsPlain | src/args.rs:74-79 | a decimal rendering is a non-empty string of digits, with no separator or whitespace |
| Args.DecimalsParse | src/args.rs:74-79 | decimal renderings of indexes that fit a `usize` parse back to those indexes |
| Args.IndexesRoundTrip | src/args.rs:74-79 | indexes that fit a `usize`, rendered in decimal and joined by a padded separator, parse back to the same indexes |
| Args.ListedLocationIsAFilter | src/args.rs:74-79 | the " . "-joined indexes a listing shows as a location parse back, as a path filter, to that path |
| Codec.FirstOffence | src/ink/conversion.rs:29-50 | finds the first entry with a wrong `$type` or `$storage`, with none before it, or reports that there is none |
| Codec.VisitTypedMap | src/ink/conversion.rs:21-55 | the key loop returns what the typed-map decoding defines |
| Codec.DecodeResourcePath | src/ink/conversion.rs:60-111 | a resource path decodes exactly when its typed map does, to the path of the map's `$value`, and fails with the same error otherwise |
| Codec.TypedMapOutcome | src/ink/conversion.rs:21-55 | a typed map decodes exactly when no entry offends and `$type`, `$storage` and `$value` all occur, to the last `$value`; with no offence but a key missing it is "invalid map sequence" |
| Codec.TypedMap | src/ink/conversion.rs:21-55 | a decoded typed map has a `$value` key and gives its last `$value`; a failure is the wrong type, a wrong `$type`, a wrong `$storage` or "invalid map sequence" |
| Codec.DecodeCName | src/ink/conversion.rs:9-58 | a decoded name comes from a map where no entry has a wrong `$type` or `$storage`, and is its last `$value` |
| Codec.FailsAtOnce | src/ink/conversion.rs:29-45 | after a wrong `$type` or `$storage`, nothing later in the map changes the result |
| Codec.CNameRoundTrip | src/ink/conversion.rs:9-58 | a name written with `$type` "CName" and `$storage` "string" decodes to its `$value`, and any other `$type` or `$storage` is refused |
| Codec.ResourcePathRoundTrip | src/ink/conversion.rs:60-111 | a resource path written in full decodes to itself |
| Codec.LocKeyFromU32 | src/ink/conversion.rs:137-145 | a numeric key decodes exactly when it has at most five digits, to that id |
| Codec.Utf8Width | src/ink/conversion.rs:186-188 | a character takes one to four UTF-8 bytes, and one exactly when it is ASCII |
| Codec.Utf8Len | src/ink/conversion.rs:186-188 | a string takes at least one byte per character |
| Codec.BoundaryAt | src/ink/conversion.rs:188 | a byte boundary found lies within the string |
| Codec.BoundaryAtFinds | src/ink/conversion.rs:188 | the end of every prefix of whole characters is found as a boundary |
| Codec.AsciiLength | src/ink/conversion.rs:186-188 | an ASCII string takes one byte per character |
| Codec.BoundaryAfterAscii | src/ink/conversion.rs:188 | after an ASCII prefix, boundaries are those of the rest, shifted |
| Codec.LocKeyFromStr | src/ink/conversion.rs:178-195 | the empty string is the empty string key; an id is decoded only from "LocKey#" and five more characters; any other successful result keeps the whole string |
| Codec.LocKeyFromStrAsWritten | src/ink/conversion.rs:178-195 | `visit_str` as written panics only with the char-boundary message and only on a 12-byte string; any success is some key, and a string key keeps the whole text |
| Codec.AsWrittenPanics | src/ink/conversion.rs:188 | the decoder as written panics exactly on a 12-byte string whose byte 7 falls inside a character |
| Codec.OffBoundaryPanics | src/ink/conversion.rs:188 | such a string panics with the char-boundary message |
| Codec.NoPanicOnBoundary | src/ink/conversion.rs:182-195 | any other string returns |
| Codec.CorrectedAgreesWhereNoPanic | src/ink/conversion.rs:178-195 | wherever the decoder as written returns, the corrected one returns the same |
| Codec.AccentPanics | src/ink/conversion.rs:188 | "LocKeyéabcd" panics as written, while the corrected decoder keeps it as a string key |
| Codec.DigitsValueBound | src/ink/conversion.rs:189 | the value of a digit string is below ten to the power of its length |
| Codec.PrefixedIdDecodes | src/ink/conversion.rs:185-192 | "LocKey#" followed by five ASCII digits decodes to the id they spell, which has at most five digits |
| Codec.VisitLocKeyMap | src/ink/conversion.rs:197-208 | the key loop returns what the map decoding as written defines, including the panic of `visit_str` on the first "value" |
| Codec.LocKeyFromMapAsWritten | src/ink/conversion.rs:197-208 | the map decoding as written panics only with the char-boundary message and only when the map has a "value" entry; a successful decoding is some key |
| Codec.LocKeyFromMap | src/ink/conversion.rs:197-208 | the map decoding with the corrected string rule succeeds only on a map with a "value" entry, and then gives some key |
| Codec.LocKeyMapUsesFirstValue | src/ink/conversion.rs:197-208 | a map with no "value" entry is "invalid map sequence"; a first "value" that is a string decodes, or panics, exactly as `visit_str` does on it; any other first "value" is refused |
| Codec.FirstValueExists | src/ink/conversion.rs:201-202 | a map that has a "value" key has a first entry with that key |
| Codec.MapPanics | src/ink/conversion.rs:202-204 | the map decoding as written panics exactly when its first "value" entry is a 12-byte string whose byte 7 falls inside a character |
| Codec.CorrectedMapAgreesWhereNoPanic | src/ink/conversion.rs:197-208 | wherever the map decoding as written returns, the corrected one returns the same |
| Codec.LocKeyFromNumber | src/ink/conversion.rs:130-176 | a numeric key that decodes is an id of at most five digits; a negative `i32` is "negative digit"; strings, maps, 128-bit integers, floats and other values are refused as the wrong type |
| Codec.DecodeLocKeyAsWritten | src/ink/conversion.rs:113-211 | `deserialize_lockey_from_anything` as written panics only with the char-boundary message and only on a string or a map; a successful decoding is some key |
| Codec.DecodeLocKey | src/ink/conversion.rs:113-211 | the corrected decoder never panics; a success is some key, a string decoded to a string key keeps its text, and a number decodes only to an id of at most five digits |
| Codec.DecodePanics | src/ink/conversion.rs:188-204 | the decoder as written panics exactly on a string, or a map whose first "value" entry is a string, that is twelve bytes long with byte 7 inside a character |
| Codec.CorrectedDecodeAgreesWhereNoPanic | src/ink/conversion.rs:113-211 | wherever the decoder as written returns, the corrected decoder returns the same |
| Codec.AccentPanicsInEveryForm | src/ink/conversion.rs:188-204 | "LocKeyéabcd" panics as written both as a string and as the "value" of a map, while the corrected decoder keeps it as a string key in both forms |
| Codec.NumericLocKeys | src/ink/conversion.rs:130-176 | in the decoder as written, numbers up to 99999 decode to that id whatever their width; larger `u32`s are "greater than 5 digits"; negative `i32`s are "negative digit" |
| Codec.WideKeysAreTruncated | src/ink/conversion.rs:147-176 | in the decoder as written, wider integers are cut to 32 bits first: 2^32 + 7 as a `u64` is id 7, and -1 as an `i64` or `i16` is too large |
| Codec.LocKeyRoundTrip | src/ink/conversion.rs:130-210 | through the decoder as written, an id of at most five digits written as a number decodes to itself, and so does a string key, written as a string or as a map's "value", unless it is twelve bytes long and starts with "LocKey#" or has byte 7 inside a character |
| Codec.CorrectedLocKeyRoundTrip | src/ink/conversion.rs:130-210 | through the corrected decoder, every id of at most five digits and every string key that is not twelve bytes starting with "LocKey#" decodes to itself |
| Codec.ValueOf | src/ink/conversion.rs:319-326 | a field's value is found exactly when some entry has its key |
| Codec.Field | src/ink/conversion.rs:319-326 | a derived struct field is read only when its key occurs exactly once |
| Codec.DecodeVector2 | src/ink/conversion.rs:319-321 | a decoded vector has its x and y read from the one "X" entry and the one "Y" entry of the map |
| Codec.DecodeHDRColor | src/ink/conversion.rs:324-326 | a decoded colour has each of its four channels read from the one entry with that channel's key |
| Codec.RangeFromMap | src/ink/conversion.rs:312-330 | the map decoding panics exactly on the empty map; a success has `$type` as the first key, is never a percentage, and is a position only after `$type` "Vector2" and a colour only after `$type` "HDRColor" |
| Codec.DecodeRange | src/ink/conversion.rs:213-334 | a decoded range is a percentage exactly when the input is a number; anything that is neither a number nor a map is refused as the wrong type |
| Codec.NumbersArePercentages | src/ink/conversion.rs:228-310 | every number decodes to a percentage, and an integer that fits an `i32` keeps its value, whatever its width |
| Codec.LargeUnsignedWraps | src/ink/conversion.rs:242-254 | 2^31 as a `u32` becomes the percentage -2^31, and 2^32 + 1 as a `u64` becomes 1 |
| Codec.Vector2RoundTrip | src/ink/conversion.rs:316-322 | a vector written with `$type` "Vector2" first decodes to that position |
| Codec.HDRColorRoundTrip | src/ink/conversion.rs:323-327 | a colour written with `$type` "HDRColor" first decodes to that colour |
| Codec.OnlyEntryWithKey | src/ink/conversion.rs:319-326 | a field named by exactly one entry is read from that entry |
| Codec.NoEntryWithKey | src/ink/conversion.rs:319-326 | a key named by no entry is counted zero times |
| Codec.TypeTagMustComeFirst | src/ink/conversion.rs:316-329 | a map whose first entry is not a `$type` naming Vector2 or HDRColor is "unknown type", even if such a `$type` comes later |
| Codec.OnlyEmptyMapPanics | src/ink/conversion.rs:312-316 | the range decoder panics exactly on the empty map, where `next_entry` yields nothing to unwrap |

## Left out

- Reading files and parsing JSON text, printing, the terminal table layout (cells, column spans, separators, emoji, time and direction columns) and `into_json`: the listing is modelled down to which blocks are shown, with which definition index, handle, location text and kept interpolators.
- `get_widget_classname`, which the later listings call for their kind column, is not part of this model. Only the `expect("Root")` lookup that comes before it is modelled (`Listing.LaterListingNeedsRoot`).
- `Listing.IntoTable`: the body of `sibling_or_nested`, used by the later listings' path filter and by `TypesAnim`, is not part of this model. It is taken to be the prefix test of `same_or_nested`.
- `Codec.VisitTypedMap`: map keys other than `$type`, `$storage` and `$value` (and other than "value" in `Codec.VisitLocKeyMap` and `Codec.LocKeyFromMapAsWritten`) are skipped without reading their values. serde's `MapAccess` mechanics are not modelled.
- `Codec.DecodeLocKey` and `Codec.LocKeyFromMap` apply the corrected string rule of the second finding and never panic. The source's behaviour, including the panic, is `Codec.DecodeLocKeyAsWritten` and `Codec.LocKeyFromMapAsWritten`, and `Codec.CorrectedDecodeAgreesWhereNoPanic` ties the two together wherever the source returns.
- `Codec.Field`: the derived `Vector2` and `HDRColor` decoders are modelled as reading each field by key, with "missing field" and "duplicate field" errors and other keys ignored. The order in which serde reports several errors, and its exact error texts, are not modelled.
- `Anim.RangeOrderIsStrictTotal`: holds only without NaN. `f32` is `real` throughout, so rounding, NaN, infinities, negative zero and the exact results of integer-to-float and `f64`-to-`f32` casts are left out.
- `Reds.F32Value`: Rust's shortest round-trip decimal rendering of a non-whole `f32` is a parameter. Only the whole/non-whole rule and the rendering of whole values are modelled.
- The `RedsValue` impls for `Name`, `Flags`, `CName`, `Vector2` and `HandleId` are not part of this model. Their renderings are abstract formatter functions, passed in as parameters.
- `Widget.MultiChildrenSerialized`: the serialisation of a child widget is a parameter, since the derived `Serialize` of the eighteen widget structs is not written out. The model records serde's data model, not JSON text.
- The `Display` impls and `src/ink/anim/display.rs` (float-to-text formatting) are not modelled.
- The clap command-line definitions are not modelled, apart from the two path parsers and the filter spellings.
- `show`, `whois`, `whereis`, `tree` and `generate` are not modelled: they are glue around the walks, and `generate` is an empty stub.
- The newer derive macros in crates/macros/src/lib.rs end in `todo!()` and are not modelled. crates/types/src/ink/reds.rs is commented out and is not modelled either.
- Ownership, cloning and the `Option` around `parent` in the walks are not modelled: `parent` is only ever set to `Some`, so its `is_none` exit is never taken, and the model keeps a plain widget.

## Findings

| source | as written | input that shows it | evidently intended | confidence | as-written member | corrected member |
|---|---|---|---|---|---|---|
| src/ink/widget/implementation.rs:466-479 | when the walk's parent is a leaf at the last name, `get_path_indexes` breaks out of the loop and returns the indexes so far, so the last name is never looked up | the first child of the root is a text widget named `a`; the names `[a, b]` give `Some([0])` | a leaf has no children, so a name left to look up under it gives `None`, and a result has one index per name | not executed | `Tree.NameAfterLeafIsIgnored`, `Tree.IndexesAsWrittenVersusCorrected` | `Tree.PathIndexesCorrected`, `Tree.CorrectedIndexesMatchNames` |
| src/ink/conversion.rs:188-204 | `visit_str` slices `&v[0..7]` once `v.len()` is 12 bytes, which panics when byte 7 falls inside a multi-byte character; `visit_map` hands its first "value" to `visit_str`, so the map form panics too | `"LocKeyéabcd"` (12 bytes, with `é` in bytes 6-7), as a string or as `{"value": "LocKeyéabcd"}` | a 12-byte string that does not start with `LocKey#` is kept as a string key, in either form | not executed | `Codec.LocKeyFromStrAsWritten`, `Codec.DecodeLocKeyAsWritten`, `Codec.AccentPanicsInEveryForm` | `Codec.LocKeyFromStr`, `Codec.DecodeLocKey`, `Codec.CorrectedDecodeAgreesWhereNoPanic` |
