/**
 * The selection of animation targets as the types crate states it
 * (crates/types/src/ink/mod.rs): the sequence name is a `Name`, and a target
 * is kept when its path is a sibling of, or nested below, the searched path.
 * The sibling-or-nested test itself is declared there but its body is not
 * part of this model; it is taken to be the same prefix test as
 * `same_or_nested`.
 */
module TypesAnim {
  import opened Wrappers
  import opened Ink
  import Anim

  datatype InkAnimSequence = InkAnimSequence(
    definitions: seq<InkWrapper<Anim.InkAnimDefinition>>,
    name: Name,
    targets: seq<Anim.Target>)

  datatype PathSummary = PathSummary(name: Name, handleId: HandleId, index: nat, path: seq<nat>)

  /** The summaries from target `t` on: one per path-bearing target whose path starts with `searched`. */
  function SelectedFrom(s: InkAnimSequence, searched: seq<nat>, t: nat): (r: seq<PathSummary>)
    requires t <= |s.targets|
    ensures |r| <= |s.targets| - t
    ensures forall p | p in r :: t <= p.index < |s.targets|
    decreases |s.targets| - t
  {
    if t == |s.targets| then []
    else match s.targets[t]
      case WithoutHandleId(_) => SelectedFrom(s, searched, t + 1)
      case WithHandleId(h) =>
        (if Anim.IsPrefix(searched, h.data.path) then [PathSummary(s.name, h.handleId, t, h.data.path)] else []) +
        SelectedFrom(s, searched, t + 1)
  }

  /** `get_path_indexes_matching`: still computes `count - 1`, so an empty searched path panics. */
  function PathIndexesMatching(s: InkAnimSequence, searched: seq<nat>): (r: Outcome<seq<PathSummary>>)
    ensures r.Panics? <==> |searched| == 0
    ensures r.Returns? ==> |r.value| <= |s.targets| && forall p | p in r.value :: p.index < |s.targets|
  {
    if |searched| == 0 then Panics(SubtractOverflow) else Returns(SelectedFrom(s, searched, 0))
  }

  method GetPathIndexesMatching(s: InkAnimSequence, searched: seq<nat>) returns (r: Outcome<seq<PathSummary>>)
    ensures r == PathIndexesMatching(s, searched)
  {
    var count := |searched|;
    if count == 0 {
      return Panics(SubtractOverflow);
    }
    var out: seq<PathSummary> := [];
    assert out + SelectedFrom(s, searched, 0) == SelectedFrom(s, searched, 0);
    for targetIndex := 0 to |s.targets|
      invariant out + SelectedFrom(s, searched, targetIndex) == SelectedFrom(s, searched, 0)
    {
      match s.targets[targetIndex] {
        case WithHandleId(handle) =>
          var path := handle.data.path;
          var nested := Anim.SameOrNested(path, searched);
          var rest := SelectedFrom(s, searched, targetIndex + 1);
          if nested {
            var summary := PathSummary(s.name, handle.handleId, targetIndex, path);
            assert (out + [summary]) + rest == out + ([summary] + rest);
            out := out + [summary];
          } else {
            assert [] + rest == rest;
          }
        case WithoutHandleId(_) =>
      }
    }
    assert out + [] == out;
    return Returns(out);
  }

  /** What one summary says: a path-bearing target, its position, handle and path, and a path below `searched`. */
  predicate SummaryOf(s: InkAnimSequence, searched: seq<nat>, p: PathSummary) {
    p.index < |s.targets| && s.targets[p.index].WithHandleId? &&
    p.name == s.name &&
    p.handleId == s.targets[p.index].handle.handleId &&
    p.path == s.targets[p.index].handle.data.path &&
    Anim.IsPrefix(searched, p.path)
  }

  /** Every summary from `t` on describes a matching path-bearing target at or after `t`. */
  lemma {:induction false} SelectedSound(s: InkAnimSequence, searched: seq<nat>, t: nat)
    requires t <= |s.targets|
    ensures forall p | p in SelectedFrom(s, searched, t) :: SummaryOf(s, searched, p) && t <= p.index
    decreases |s.targets| - t
  {
    if t < |s.targets| {
      SelectedSound(s, searched, t + 1);
    }
  }

  predicate IncreasingIndexes(out: seq<PathSummary>) {
    forall j1, j2 | 0 <= j1 < j2 < |out| :: out[j1].index < out[j2].index
  }

  /** Summaries come in strictly increasing target order. */
  lemma {:induction false} SelectedOrdered(s: InkAnimSequence, searched: seq<nat>, t: nat)
    requires t <= |s.targets|
    ensures IncreasingIndexes(SelectedFrom(s, searched, t))
    decreases |s.targets| - t
  {
    if t < |s.targets| {
      SelectedOrdered(s, searched, t + 1);
      SelectedSound(s, searched, t + 1);
      var out := SelectedFrom(s, searched, t);
      var rest := SelectedFrom(s, searched, t + 1);
      if s.targets[t].WithHandleId? && Anim.IsPrefix(searched, s.targets[t].handle.data.path) {
        var h := s.targets[t].handle;
        var first := PathSummary(s.name, h.handleId, t, h.data.path);
        assert out == [first] + rest;
        forall j1, j2 | 0 <= j1 < j2 < |out| ensures out[j1].index < out[j2].index {
          assert out[j2] == rest[j2 - 1] && rest[j2 - 1] in rest;
          if j1 > 0 {
            assert out[j1] == rest[j1 - 1];
          }
        }
      } else if s.targets[t].WithHandleId? {
        assert out == [] + rest;
        assert [] + rest == rest;
      }
    }
  }

  /** Every matching path-bearing target at or after `t` is summarised. */
  lemma {:induction false} SelectedComplete(s: InkAnimSequence, searched: seq<nat>, t: nat, k: nat)
    requires t <= k < |s.targets| && s.targets[k].WithHandleId? && Anim.IsPrefix(searched, s.targets[k].handle.data.path)
    ensures exists p | p in SelectedFrom(s, searched, t) :: p.index == k
    decreases |s.targets| - t
  {
    var out := SelectedFrom(s, searched, t);
    if k == t {
      assert out[0].index == k;
    } else {
      SelectedComplete(s, searched, t + 1, k);
      var p :| p in SelectedFrom(s, searched, t + 1) && p.index == k;
      if s.targets[t].WithHandleId? {
        assert out == (if Anim.IsPrefix(searched, s.targets[t].handle.data.path) then [PathSummary(s.name, s.targets[t].handle.handleId, t, s.targets[t].handle.data.path)] else []) + SelectedFrom(s, searched, t + 1);
      }
      assert p in out;
    }
  }

  /**
   * Unlike the earlier selections, this one panics only on an empty searched
   * path, and wherever an earlier selection returns, this one picks the
   * same targets in the same order.
   */
  lemma {:induction false} AgreesWithEarlierSelection(s: InkAnimSequence, searched: seq<nat>, t: nat)
    requires t <= |s.targets|
    ensures var earlier := Anim.MatchingFrom(Anim.InkAnimSequence(s.definitions, AsStr(s.name), s.targets), searched, t);
      earlier.Returns? ==> SamePicks(SelectedFrom(s, searched, t), earlier.value)
    decreases |s.targets| - t
  {
    if t < |s.targets| {
      var a := Anim.InkAnimSequence(s.definitions, AsStr(s.name), s.targets);
      AgreesWithEarlierSelection(s, searched, t + 1);
      if Anim.MatchingFrom(a, searched, t).Returns? {
        Anim.MatchingFromStep(a, searched, t);
        var before: seq<Anim.PathSummary> := Anim.Contribution(a, searched, t);
        var rest: seq<Anim.PathSummary> := Anim.MatchingFrom(a, searched, t + 1).value;
        var head: seq<PathSummary> := if s.targets[t].WithHandleId? && Anim.IsPrefix(searched, s.targets[t].handle.data.path)
          then [PathSummary(s.name, s.targets[t].handle.handleId, t, s.targets[t].handle.data.path)] else [];
        var tail := SelectedFrom(s, searched, t + 1);
        assert SelectedFrom(s, searched, t) == head + tail;
        assert SamePicks(head, before);
        SamePicksAppend(head, tail, before, rest);
      }
    }
  }

  /** Two selections pick the same targets, in the same order, with the same handles and paths. */
  predicate SamePicks(now: seq<PathSummary>, earlier: seq<Anim.PathSummary>) {
    |now| == |earlier| &&
    forall j | 0 <= j < |now| ::
      now[j].index == earlier[j].index && now[j].path == earlier[j].path && now[j].handleId == earlier[j].handleId
  }

  lemma SamePicksAppend(a: seq<PathSummary>, b: seq<PathSummary>, x: seq<Anim.PathSummary>, y: seq<Anim.PathSummary>)
    requires SamePicks(a, x) && SamePicks(b, y)
    ensures SamePicks(a + b, x + y)
  {
    forall j | |a| <= j < |a + b| ensures (a + b)[j] == b[j - |a|] && (x + y)[j] == y[j - |a|] {
    }
  }

  /** A target path shorter than the searched path is simply not selected here. */
  lemma ShortPathsDoNotPanic(s: InkAnimSequence, searched: seq<nat>)
    requires |searched| > 0
    ensures PathIndexesMatching(s, searched).Returns?
    ensures forall p | p in PathIndexesMatching(s, searched).value :: |searched| <= |p.path|
  {
    SelectedSound(s, searched, 0);
  }
}
