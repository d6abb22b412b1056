/**
 * Animation sequences (src/ink/anim/mod.rs, src/ink/anim/implementation.rs):
 * the start and end values of an interpolator and their derived order, the
 * six interpolator kinds and how each is matched against a filter kind, the
 * path-prefix test that binds an animation target to a widget subtree, and
 * the selection of the targets below a searched path.
 */
module Anim {
  import opened Wrappers
  import opened Ink
  import Filters
  import Text

  /// Interpolated values

  /** `Range`: a percentage, a position or a colour. */
  datatype Range = Percent(percent: real) | Position(position: Vector2) | Color(color: HDRColor)

  function RangeVariant(r: Range): nat {
    match r
    case Percent(_) => 0
    case Position(_) => 1
    case Color(_) => 2
  }

  /** The derived order on `Vector2`: `x` first, then `y`. */
  predicate Vector2Less(a: Vector2, b: Vector2) {
    a.x < b.x || (a.x == b.x && a.y < b.y)
  }

  /** The derived order on `HDRColor`: alpha, then blue, then green, then red. */
  predicate HDRColorLess(a: HDRColor, b: HDRColor) {
    a.alpha < b.alpha ||
    (a.alpha == b.alpha && (a.blue < b.blue ||
    (a.blue == b.blue && (a.green < b.green ||
    (a.green == b.green && a.red < b.red)))))
  }

  /** The derived order on `Range`: by variant first, then by the values inside. */
  predicate RangeLess(a: Range, b: Range) {
    if RangeVariant(a) != RangeVariant(b) then RangeVariant(a) < RangeVariant(b)
    else match a
      case Percent(p) => p < b.percent
      case Position(v) => Vector2Less(v, b.position)
      case Color(c) => HDRColorLess(c, b.color)
  }

  /** Without NaN, the derived order on `Range` is a strict total order. */
  lemma RangeOrderIsStrictTotal(a: Range, b: Range, c: Range)
    ensures !RangeLess(a, a)
    ensures RangeLess(a, b) ==> !RangeLess(b, a)
    ensures RangeLess(a, b) && RangeLess(b, c) ==> RangeLess(a, c)
    ensures a == b || RangeLess(a, b) || RangeLess(b, a)
  {
  }

  /** Every percentage lies below every position, and every position below every colour. */
  lemma VariantsComeFirst(p: real, v: Vector2, c: HDRColor)
    ensures RangeLess(Percent(p), Position(v)) && RangeLess(Position(v), Color(c))
    ensures RangeLess(Percent(p), Color(c))
  {
  }

  /// Interpolators

  datatype Direction = To | From | FromTo
  datatype Mode = EasyIn | EasyOut | EasyInOut
  datatype Type = Linear | Quadratic | Qubic | Quartic | Quintic | Sinusoidal | Exponential | Elastic | Circular | Back

  datatype Interpolator = Interpolator(
    duration: real,
    endValue: Range,
    interpolationDirection: Direction,
    interpolationMode: Mode,
    interpolationType: Type,
    isAdditive: bool,
    startDelay: real,
    startValue: Range,
    useRelativeDuration: bool)

  /** The six interpolator kinds, each carrying the same interpolator fields. */
  datatype InkAnimInterpolator =
    | inkanimScaleInterpolator(interpolator: Interpolator)
    | inkanimTranslationInterpolator(interpolator: Interpolator)
    | inkanimTransparencyInterpolator(interpolator: Interpolator)
    | inkanimSizeInterpolator(interpolator: Interpolator)
    | inkanimColorInterpolator(interpolator: Interpolator)
    | inkanimTextValueProgressInterpolator(interpolator: Interpolator)

  /** `starts()`: the start delay, whatever the kind. */
  function Starts(a: InkAnimInterpolator): real {
    a.interpolator.startDelay
  }

  function Duration(a: InkAnimInterpolator): real {
    a.interpolator.duration
  }

  /** `ends()`: the start plus the duration, whatever the kind. */
  function Ends(a: InkAnimInterpolator): (r: real)
    ensures r - Starts(a) == Duration(a)
  {
    Starts(a) + a.interpolator.duration
  }

  /** An interpolator never ends before it starts unless its duration is negative. */
  lemma EndsAfterStarts(a: InkAnimInterpolator)
    ensures Starts(a) <= Ends(a) <==> Duration(a) >= 0.0
    ensures Starts(a) == a.interpolator.startDelay
  {
  }

  /**
   * `PartialEq<InkAnimInterpolatorType>`: scale, translation, size, colour
   * and text-value-progress interpolators match their own kind only; a
   * transparency interpolator matches plain transparency always, fade-in
   * when it starts below where it ends, and fade-out when it starts above.
   */
  predicate Matches(a: InkAnimInterpolator, filter: Filters.InkAnimInterpolatorType)
    ensures Matches(a, filter) ==> (a.inkanimTransparencyInterpolator? <==> filter.Transparency?)
  {
    match a
    case inkanimScaleInterpolator(_) => filter == Filters.Scale
    case inkanimTranslationInterpolator(_) => filter == Filters.Translation
    case inkanimTransparencyInterpolator(i) =>
      (match filter
       case Transparency(None) => true
       case Transparency(Some(In)) => RangeLess(i.startValue, i.endValue)
       case Transparency(Some(Out)) => RangeLess(i.endValue, i.startValue)
       case _ => false)
    case inkanimSizeInterpolator(_) => filter == Filters.Size
    case inkanimColorInterpolator(_) => filter == Filters.Color
    case inkanimTextValueProgressInterpolator(_) => filter == Filters.TextValueProgress
  }

  /** The filter kind each interpolator kind answers to, transparency set aside. */
  function Counterpart(a: InkAnimInterpolator): Option<Filters.InkAnimInterpolatorType> {
    match a
    case inkanimScaleInterpolator(_) => Some(Filters.Scale)
    case inkanimTranslationInterpolator(_) => Some(Filters.Translation)
    case inkanimTransparencyInterpolator(_) => None
    case inkanimSizeInterpolator(_) => Some(Filters.Size)
    case inkanimColorInterpolator(_) => Some(Filters.Color)
    case inkanimTextValueProgressInterpolator(_) => Some(Filters.TextValueProgress)
  }

  /** The non-transparency kinds match by kind alone, whatever their values. */
  lemma TagOnlyMatching(a: InkAnimInterpolator, filter: Filters.InkAnimInterpolatorType)
    requires !a.inkanimTransparencyInterpolator?
    ensures Counterpart(a).Some?
    ensures Matches(a, filter) <==> filter == Counterpart(a).value
    ensures Matches(a, filter) <==> Matches(a.(interpolator := a.interpolator.(startValue := a.interpolator.endValue)), filter)
  {
  }

  /** Transparency interpolators are classified by comparing their start and end values. */
  lemma TransparencyMatching(i: Interpolator, filter: Filters.InkAnimInterpolatorType)
    ensures Matches(inkanimTransparencyInterpolator(i), Filters.OPACITY)
    ensures Matches(inkanimTransparencyInterpolator(i), Filters.FADEIN) <==> RangeLess(i.startValue, i.endValue)
    ensures Matches(inkanimTransparencyInterpolator(i), Filters.FADEOUT) <==> RangeLess(i.endValue, i.startValue)
    ensures !filter.Transparency? ==> !Matches(inkanimTransparencyInterpolator(i), filter)
  {
  }

  /** No transparency interpolator is both a fade-in and a fade-out, and a flat one is neither. */
  lemma FadesAreExclusive(i: Interpolator)
    ensures !(Matches(inkanimTransparencyInterpolator(i), Filters.FADEIN) &&
              Matches(inkanimTransparencyInterpolator(i), Filters.FADEOUT))
    ensures i.startValue == i.endValue ==>
      !Matches(inkanimTransparencyInterpolator(i), Filters.FADEIN) &&
      !Matches(inkanimTransparencyInterpolator(i), Filters.FADEOUT)
  {
    RangeOrderIsStrictTotal(i.startValue, i.endValue, i.startValue);
  }

  /** Filter kinds with no interpolator counterpart never match anything. */
  lemma UnlistedKindsNeverMatch(a: InkAnimInterpolator, filter: Filters.InkAnimInterpolatorType)
    requires filter !in Filters.ValueVariants
    ensures !Matches(a, filter)
  {
    Filters.ValueVariantsDistinct();
  }

  /// Sequences and targets

  datatype InkAnimDefinition = InkAnimDefinition(interpolators: seq<InkWrapper<InkAnimInterpolator>>)

  datatype InkAnimSequenceTargetInfo = InkAnimSequenceTargetInfo(path: seq<nat>)

  /** A target either carries a handle and a widget path, or only a handle reference. */
  datatype Target =
    | WithHandleId(handle: InkWrapper<InkAnimSequenceTargetInfo>)
    | WithoutHandleId(handleRefId: int)

  datatype InkAnimSequence = InkAnimSequence(
    definitions: seq<InkWrapper<InkAnimDefinition>>,
    name: string,
    targets: seq<Target>)

  datatype InkAnimAnimationLibraryResource = InkAnimAnimationLibraryResource(
    cookingPlatform: string,
    sequences: seq<InkWrapper<InkAnimSequence>>)

  /** The interpolators of `xs` that match `filter`, in their original order. */
  function Filtered(xs: seq<InkWrapper<InkAnimInterpolator>>, filter: Filters.InkAnimInterpolatorType): (r: seq<InkWrapper<InkAnimInterpolator>>)
    ensures |r| <= |xs|
    ensures forall x | x in r :: x in xs && Matches(x.data, filter)
  {
    if |xs| == 0 then []
    else (if Matches(xs[0].data, filter) then [xs[0]] else []) + Filtered(xs[1..], filter)
  }

  /** Filtering keeps every match and the order: it distributes over concatenation. */
  lemma {:induction false} FilteredAppend(xs: seq<InkWrapper<InkAnimInterpolator>>, ys: seq<InkWrapper<InkAnimInterpolator>>, filter: Filters.InkAnimInterpolatorType)
    ensures Filtered(xs + ys, filter) == Filtered(xs, filter) + Filtered(ys, filter)
  {
    if |xs| == 0 {
      assert xs + ys == ys;
    } else {
      var tail: seq<InkWrapper<InkAnimInterpolator>> := xs[1..];
      assert (xs + ys)[0] == xs[0] && (xs + ys)[1..] == tail + ys;
      FilteredAppend(tail, ys, filter);
      var ft, fy := Filtered(tail, filter), Filtered(ys, filter);
      if Matches(xs[0].data, filter) {
        assert Filtered(xs + ys, filter) == [xs[0]] + (ft + fy);
        assert [xs[0]] + (ft + fy) == ([xs[0]] + ft) + fy;
      } else {
        assert Filtered(xs + ys, filter) == [] + (ft + fy);
        assert Filtered(xs, filter) == [] + ft;
      }
    }
  }

  /** Every matching interpolator is kept. */
  lemma {:induction false} FilteredKeepsMatches(xs: seq<InkWrapper<InkAnimInterpolator>>, filter: Filters.InkAnimInterpolatorType, k: nat)
    requires k < |xs| && Matches(xs[k].data, filter)
    ensures xs[k] in Filtered(xs, filter)
  {
    if k > 0 {
      FilteredKeepsMatches(xs[1..], filter, k - 1);
    }
  }

  const NoDefinition: string := "at least one ink anim definition"

  /** `get_interpolators_matching`: the matching interpolators of the first definition. */
  function GetInterpolatorsMatching(s: InkAnimSequence, filter: Filters.InkAnimInterpolatorType): (r: Outcome<seq<InkWrapper<InkAnimInterpolator>>>)
    ensures r.Panics? <==> |s.definitions| == 0
    ensures r.Returns? ==> r.value == Filtered(s.definitions[0].data.interpolators, filter)
  {
    if |s.definitions| == 0 then Panics(NoDefinition)
    else Returns(Filtered(s.definitions[0].data.interpolators, filter))
  }

  /// The path-prefix test

  /** `searched` is a prefix of `path`. */
  predicate IsPrefix(searched: seq<nat>, path: seq<nat>) {
    |searched| <= |path| && path[..|searched|] == searched
  }

  /**
   * `same_or_nested`: walks `own` while it agrees with `searched`, and
   * answers true once the last searched position is reached.
   */
  method SameOrNested(own: seq<nat>, searched: seq<nat>) returns (b: bool)
    ensures b <==> IsPrefix(searched, own)
  {
    var countOwn := |own|;
    var countSearched := |searched|;
    if countSearched == 0 {
      return true;
    }
    var lastSearched := countSearched - 1;
    for i := 0 to |own|
      invariant i <= lastSearched
      invariant own[..i] == searched[..i]
    {
      if own[i] != searched[i] {
        return false;
      }
      assert own[..i + 1] == own[..i] + [own[i]];
      assert searched[..i + 1] == searched[..i] + [searched[i]];
      if i == lastSearched && countOwn >= countSearched {
        return true;
      }
    }
    return false;
  }

  /** An empty searched path matches every path, and every path matches itself. */
  lemma PrefixBasics(path: seq<nat>)
    ensures IsPrefix([], path)
    ensures IsPrefix(path, path)
  {
  }

  /** A searched path longer than the path, or disagreeing at a shared position, never matches. */
  lemma PrefixFailures(searched: seq<nat>, path: seq<nat>, k: nat)
    ensures |searched| > |path| ==> !IsPrefix(searched, path)
    ensures k < |searched| && k < |path| && searched[k] != path[k] ==> !IsPrefix(searched, path)
  {
  }

  /** Positions of the path beyond the searched length never matter. */
  lemma PrefixIgnoresTail(searched: seq<nat>, path: seq<nat>, tail: seq<nat>)
    requires |searched| <= |path|
    ensures IsPrefix(searched, path + tail) <==> IsPrefix(searched, path)
  {
    assert (path + tail)[..|searched|] == path[..|searched|];
  }

  /// Selecting targets by path

  /** A path that `searched` runs past: the whole path agrees with the start of `searched`. */
  predicate ShortMatch(path: seq<nat>, searched: seq<nat>) {
    |path| < |searched| && searched[..|path|] == path
  }

  function IndexOutOfBounds(len: nat, index: nat): string {
    "index out of bounds: the len is " + Text.Decimal(len) + " but the index is " + Text.Decimal(index)
  }

  datatype PathSummary = PathSummary(name: string, handleId: HandleId, index: nat, path: seq<nat>)

  function Prepend<T>(pre: seq<T>, o: Outcome<seq<T>>): Outcome<seq<T>> {
    match o
    case Returns(rest) => Returns(pre + rest)
    case Panics(m) => Panics(m)
  }

  lemma PrependEmpty<T>(o: Outcome<seq<T>>)
    ensures Prepend([], o) == o
  {
    if o.Returns? {
      assert [] + o.value == o.value;
    }
  }

  lemma PrependTwice<T>(a: seq<T>, b: seq<T>, o: Outcome<seq<T>>)
    ensures Prepend(a, Prepend(b, o)) == Prepend(a + b, o)
  {
    if o.Returns? {
      assert a + (b + o.value) == (a + b) + o.value;
    }
  }

  /**
   * The summaries from target `t` on: a pathless target is skipped, a path
   * that `searched` runs past panics on indexing, and a path that starts
   * with `searched` gives one summary.
   */
  function MatchingFrom(s: InkAnimSequence, searched: seq<nat>, t: nat): (r: Outcome<seq<PathSummary>>)
    requires t <= |s.targets|
    ensures r.Returns? ==> |r.value| <= |s.targets| - t
    ensures r.Returns? ==> forall p | p in r.value :: t <= p.index < |s.targets|
    decreases |s.targets| - t
  {
    if t == |s.targets| then Returns([])
    else match s.targets[t]
      case WithoutHandleId(_) => MatchingFrom(s, searched, t + 1)
      case WithHandleId(h) =>
        if ShortMatch(h.data.path, searched) then Panics(IndexOutOfBounds(|h.data.path|, |h.data.path|))
        else Prepend(if IsPrefix(searched, h.data.path) then [PathSummary(s.name, h.handleId, t, h.data.path)] else [],
                     MatchingFrom(s, searched, t + 1))
  }

  /** `get_path_indexes_matching`, with the underflow of `count - 1` on an empty searched path. */
  function PathIndexesMatching(s: InkAnimSequence, searched: seq<nat>): (r: Outcome<seq<PathSummary>>)
    ensures |searched| == 0 ==> r == Panics(SubtractOverflow)
    ensures r.Returns? ==> |r.value| <= |s.targets| && forall p | p in r.value :: p.index < |s.targets|
  {
    if |searched| == 0 then Panics(SubtractOverflow) else MatchingFrom(s, searched, 0)
  }

  method GetPathIndexesMatching(s: InkAnimSequence, searched: seq<nat>) returns (r: Outcome<seq<PathSummary>>)
    ensures r == PathIndexesMatching(s, searched)
  {
    var count := |searched|;
    if count == 0 {
      return Panics(SubtractOverflow);
    }
    var last := count - 1;
    var out: seq<PathSummary> := [];
    PrependEmpty(MatchingFrom(s, searched, 0));
    for targetIndex := 0 to |s.targets|
      invariant PathIndexesMatching(s, searched) == Prepend(out, MatchingFrom(s, searched, targetIndex))
    {
      match s.targets[targetIndex] {
        case WithHandleId(handle) =>
          var path := handle.data.path;
          var i := 0;
          while true
            invariant 0 <= i < count && i <= |path|
            invariant path[..i] == searched[..i]
            decreases count - i
          {
            if i >= |path| {
              assert path[..i] == path;
              return Panics(IndexOutOfBounds(|path|, i));
            }
            if searched[i] != path[i] {
              assert !ShortMatch(path, searched) && !IsPrefix(searched, path);
              PrependTwice(out, [], MatchingFrom(s, searched, targetIndex + 1));
              assert out + [] == out;
              break;
            }
            assert path[..i + 1] == path[..i] + [path[i]];
            assert searched[..i + 1] == searched[..i] + [searched[i]];
            if i == last {
              assert searched[..i + 1] == searched;
              var summary := PathSummary(s.name, handle.handleId, targetIndex, path);
              PrependTwice(out, [summary], MatchingFrom(s, searched, targetIndex + 1));
              out := out + [summary];
              break;
            }
            i := i + 1;
          }
        case WithoutHandleId(_) =>
      }
    }
    assert out + [] == out;
    return Returns(out);
  }

  /** The selection panics exactly on an empty searched path or on a target path it runs past. */
  lemma {:induction false} MatchingFromPanics(s: InkAnimSequence, searched: seq<nat>, t: nat)
    requires t <= |s.targets|
    ensures MatchingFrom(s, searched, t).Panics? <==>
      exists k | t <= k < |s.targets| :: s.targets[k].WithHandleId? && ShortMatch(s.targets[k].handle.data.path, searched)
    decreases |s.targets| - t
  {
    if t < |s.targets| {
      MatchingFromPanics(s, searched, t + 1);
    }
  }

  /** What one selected summary says: a path-bearing target, its position, handle and path, and a matching path. */
  predicate SummaryOf(s: InkAnimSequence, searched: seq<nat>, p: PathSummary) {
    p.index < |s.targets| && s.targets[p.index].WithHandleId? &&
    p.name == s.name &&
    p.handleId == s.targets[p.index].handle.handleId &&
    p.path == s.targets[p.index].handle.data.path &&
    IsPrefix(searched, p.path)
  }

  /** The summary a path-bearing target at `t` contributes, if any. */
  function Contribution(s: InkAnimSequence, searched: seq<nat>, t: nat): seq<PathSummary>
    requires t < |s.targets|
  {
    match s.targets[t]
    case WithoutHandleId(_) => []
    case WithHandleId(h) => if IsPrefix(searched, h.data.path) then [PathSummary(s.name, h.handleId, t, h.data.path)] else []
  }

  /** One step of the selection: the contribution of target `t`, then the rest. */
  lemma MatchingFromStep(s: InkAnimSequence, searched: seq<nat>, t: nat)
    requires t < |s.targets| && MatchingFrom(s, searched, t).Returns?
    ensures MatchingFrom(s, searched, t + 1).Returns?
    ensures MatchingFrom(s, searched, t).value == Contribution(s, searched, t) + MatchingFrom(s, searched, t + 1).value
  {
    if s.targets[t].WithoutHandleId? {
      assert [] + MatchingFrom(s, searched, t + 1).value == MatchingFrom(s, searched, t + 1).value;
    }
  }

  /** Every selected summary describes a path-bearing target at or after `t` whose path starts with `searched`. */
  lemma {:induction false} MatchingFromSound(s: InkAnimSequence, searched: seq<nat>, t: nat)
    requires t <= |s.targets| && MatchingFrom(s, searched, t).Returns?
    ensures forall p | p in MatchingFrom(s, searched, t).value :: SummaryOf(s, searched, p) && t <= p.index
    decreases |s.targets| - t
  {
    if t < |s.targets| {
      MatchingFromStep(s, searched, t);
      MatchingFromSound(s, searched, t + 1);
    }
  }

  /** The summaries come in strictly increasing target order, so no target is listed twice. */
  lemma {:induction false} MatchingFromOrdered(s: InkAnimSequence, searched: seq<nat>, t: nat)
    requires t <= |s.targets| && MatchingFrom(s, searched, t).Returns?
    ensures var out := MatchingFrom(s, searched, t).value;
      forall j1, j2 | 0 <= j1 < j2 < |out| :: out[j1].index < out[j2].index
    decreases |s.targets| - t
  {
    if t < |s.targets| {
      MatchingFromStep(s, searched, t);
      MatchingFromOrdered(s, searched, t + 1);
      MatchingFromSound(s, searched, t + 1);
    }
  }

  /** Every path-bearing target at or after `t` whose path starts with `searched` is selected. */
  lemma {:induction false} MatchingFromComplete(s: InkAnimSequence, searched: seq<nat>, t: nat, k: nat)
    requires t <= k < |s.targets| && MatchingFrom(s, searched, t).Returns?
    requires s.targets[k].WithHandleId? && IsPrefix(searched, s.targets[k].handle.data.path)
    ensures exists p | p in MatchingFrom(s, searched, t).value :: p.index == k
    decreases |s.targets| - t
  {
    MatchingFromStep(s, searched, t);
    var out := MatchingFrom(s, searched, t).value;
    if k == t {
      assert out[0].index == k;
    } else {
      MatchingFromComplete(s, searched, t + 1, k);
      var p :| p in MatchingFrom(s, searched, t + 1).value && p.index == k;
      assert p in out;
    }
  }

  /** The selection over a whole sequence, stated for the public entry point. */
  lemma PathIndexesMatchingSpec(s: InkAnimSequence, searched: seq<nat>)
    ensures var r := PathIndexesMatching(s, searched);
      (r.Panics? <==>
        (|searched| == 0 ||
         exists k | 0 <= k < |s.targets| :: s.targets[k].WithHandleId? && ShortMatch(s.targets[k].handle.data.path, searched))) &&
      (r.Returns? ==> forall p | p in r.value :: SummaryOf(s, searched, p)) &&
      (r.Returns? ==> forall k | 0 <= k < |s.targets| && s.targets[k].WithHandleId? && IsPrefix(searched, s.targets[k].handle.data.path) ::
                        exists p | p in r.value :: p.index == k)
  {
    MatchingFromPanics(s, searched, 0);
    if PathIndexesMatching(s, searched).Returns? {
      MatchingFromSound(s, searched, 0);
      forall k | 0 <= k < |s.targets| && s.targets[k].WithHandleId? && IsPrefix(searched, s.targets[k].handle.data.path)
        ensures exists p | p in PathIndexesMatching(s, searched).value :: p.index == k
      {
        MatchingFromComplete(s, searched, 0, k);
      }
    }
  }
}
