/**
 * The earlier animation sequence (src/ink/anim.rs): interpolators carry no
 * data yet, and the selection of targets below a searched path yields
 * summaries without the sequence name. The targets are the same as in the
 * later version.
 */
module EarlyAnim {
  import opened Wrappers
  import opened Ink
  import Anim
  import opened Numeric

  datatype InkAnimInterpolator =
    | inkanimScaleInterpolator
    | inkanimTranslationInterpolator
    | inkanimTransparencyInterpolator
    | inkanimSizeInterpolator
    | inkanimColorInterpolator
    | inkanimTextValueProgressInterpolator

  datatype InkAnimDefinition = InkAnimDefinition(interpolators: seq<InkWrapper<InkAnimInterpolator>>)

  datatype InkAnimSequence = InkAnimSequence(
    definitions: seq<InkWrapper<InkAnimDefinition>>,
    name: string,
    targets: seq<Anim.Target>)

  datatype PathSummary = PathSummary(handleId: u32, index: nat, path: seq<nat>)

  /** The summaries from target `t` on, as the labelled inner loop produces them. */
  function MatchingFrom(s: InkAnimSequence, searched: seq<nat>, t: nat): (r: Outcome<seq<PathSummary>>)
    requires t <= |s.targets|
    ensures r.Returns? ==> |r.value| <= |s.targets| - t
    ensures r.Returns? ==> forall p | p in r.value :: t <= p.index < |s.targets|
    decreases |s.targets| - t
  {
    if t == |s.targets| then Returns([])
    else match s.targets[t]
      case WithoutHandleId(_) => MatchingFrom(s, searched, t + 1)
      case WithHandleId(h) =>
        if Anim.ShortMatch(h.data.path, searched) then Panics(Anim.IndexOutOfBounds(|h.data.path|, |h.data.path|))
        else Anim.Prepend(if Anim.IsPrefix(searched, h.data.path) then [PathSummary(h.handleId, t, h.data.path)] else [],
                          MatchingFrom(s, searched, t + 1))
  }

  /** `get_path_indexes_matching`, with the underflow of `count - 1` on an empty searched path. */
  function PathIndexesMatching(s: InkAnimSequence, searched: seq<nat>): (r: Outcome<seq<PathSummary>>)
    ensures |searched| == 0 ==> r == Panics(SubtractOverflow)
    ensures r.Returns? ==> |r.value| <= |s.targets| && forall p | p in r.value :: p.index < |s.targets|
  {
    if |searched| == 0 then Panics(SubtractOverflow) else MatchingFrom(s, searched, 0)
  }

  method GetPathIndexesMatching(s: InkAnimSequence, searched: seq<nat>) returns (r: Outcome<seq<PathSummary>>)
    ensures r == PathIndexesMatching(s, searched)
  {
    var count := |searched|;
    if count == 0 {
      return Panics(SubtractOverflow);
    }
    var last := count - 1;
    var out: seq<PathSummary> := [];
    Anim.PrependEmpty(MatchingFrom(s, searched, 0));
    for targetIndex := 0 to |s.targets|
      invariant PathIndexesMatching(s, searched) == Anim.Prepend(out, MatchingFrom(s, searched, targetIndex))
    {
      match s.targets[targetIndex] {
        case WithHandleId(handle) =>
          var path := handle.data.path;
          var i := 0;
          while true
            invariant 0 <= i < count && i <= |path|
            invariant path[..i] == searched[..i]
            decreases count - i
          {
            if i >= |path| {
              assert path[..i] == path;
              return Panics(Anim.IndexOutOfBounds(|path|, i));
            }
            if searched[i] != path[i] {
              assert !Anim.ShortMatch(path, searched) && !Anim.IsPrefix(searched, path);
              Anim.PrependTwice(out, [], MatchingFrom(s, searched, targetIndex + 1));
              assert out + [] == out;
              break;
            }
            assert path[..i + 1] == path[..i] + [path[i]];
            assert searched[..i + 1] == searched[..i] + [searched[i]];
            if i == last {
              assert searched[..i + 1] == searched;
              var summary := PathSummary(handle.handleId, targetIndex, path);
              Anim.PrependTwice(out, [summary], MatchingFrom(s, searched, targetIndex + 1));
              out := out + [summary];
              break;
            }
            i := i + 1;
          }
        case WithoutHandleId(_) =>
      }
    }
    assert out + [] == out;
    return Returns(out);
  }

  /** A later summary without its sequence name. */
  function WithoutName(p: Anim.PathSummary): PathSummary {
    PathSummary(p.handleId, p.index, p.path)
  }

  /** The same targets, as a later sequence with no definitions. */
  function AsLater(s: InkAnimSequence): (l: Anim.InkAnimSequence)
    ensures l.targets == s.targets && l.name == s.name
  {
    Anim.InkAnimSequence([], s.name, s.targets)
  }

  /**
   * The earlier selection picks the same targets as the later one, in the
   * same order, and panics in the same cases: its summaries are the later
   * summaries without the name.
   */
  lemma {:induction false} SameSelectionAsLater(s: InkAnimSequence, searched: seq<nat>, t: nat)
    requires t <= |s.targets|
    ensures var early := MatchingFrom(s, searched, t);
      var later := Anim.MatchingFrom(AsLater(s), searched, t);
      early.Panics? == later.Panics? &&
      (early.Returns? ==>
        |early.value| == |later.value| &&
        forall j | 0 <= j < |early.value| :: early.value[j] == WithoutName(later.value[j]))
    decreases |s.targets| - t
  {
    if t < |s.targets| {
      SameSelectionAsLater(s, searched, t + 1);
    }
  }

  /**
   * When it does not panic, the earlier selection lists exactly the
   * path-bearing targets whose path starts with `searched`, each with its
   * position and a copy of its path.
   */
  lemma EarlySelection(s: InkAnimSequence, searched: seq<nat>)
    ensures var r := PathIndexesMatching(s, searched);
      (r.Panics? <==>
        (|searched| == 0 ||
         exists k | 0 <= k < |s.targets| :: s.targets[k].WithHandleId? && Anim.ShortMatch(s.targets[k].handle.data.path, searched))) &&
      (r.Returns? ==> forall p | p in r.value ::
        p.index < |s.targets| && s.targets[p.index].WithHandleId? &&
        p.path == s.targets[p.index].handle.data.path && p.handleId == s.targets[p.index].handle.handleId &&
        Anim.IsPrefix(searched, p.path)) &&
      (r.Returns? ==> forall k | 0 <= k < |s.targets| && s.targets[k].WithHandleId? && Anim.IsPrefix(searched, s.targets[k].handle.data.path) ::
        exists p | p in r.value :: p.index == k)
  {
    var l := AsLater(s);
    Anim.PathIndexesMatchingSpec(l, searched);
    if |searched| > 0 {
      SameSelectionAsLater(s, searched, 0);
      var r := PathIndexesMatching(s, searched);
      var lr := Anim.PathIndexesMatching(l, searched);
      if r.Returns? {
        forall p | p in r.value
          ensures p.index < |s.targets| && s.targets[p.index].WithHandleId? &&
            p.path == s.targets[p.index].handle.data.path && p.handleId == s.targets[p.index].handle.handleId &&
            Anim.IsPrefix(searched, p.path)
        {
          var j :| 0 <= j < |r.value| && r.value[j] == p;
          assert lr.value[j] in lr.value;
        }
        forall k | 0 <= k < |s.targets| && s.targets[k].WithHandleId? && Anim.IsPrefix(searched, s.targets[k].handle.data.path)
          ensures exists p | p in r.value :: p.index == k
        {
          var q :| q in lr.value && q.index == k;
          var j :| 0 <= j < |lr.value| && lr.value[j] == q;
          assert r.value[j] in r.value;
        }
      }
    }
  }
}
