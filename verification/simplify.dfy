/** Lossless simplification of segment sequences (segments.rs): adjacent
    segments are merged when the second one continues the first one's
    linear function exactly. `SimplifyRatingPushIterator`,
    `SimplifyOffsetPushIterator` and `DualSimplifyIterator` run the same
    algorithm and differ only in the merge condition, so the model has one
    generic run-merging function and three merge predicates. */
module Simplify {
  import opened SegmentData
  import opened SegmentSeq

  /** The rating merge condition: equal slopes, and the next segment starts
      at the rating one point past the current run. */
  predicate RatingsMerge(cur: FullSegment<RatingInfo>, next: RatingInfo) {
    cur.data.delta == next.delta && cur.data.ExclusiveEndRating(cur.span.Len()) == next.StartRating()
  }

  /** The offset merge condition: equal drag, and the next segment starts at
      the offset one point past the current run. */
  predicate OffsetsMerge(cur: FullSegment<OffsetInfo>, next: OffsetInfo) {
    cur.data.drag == next.drag && cur.data.ExclusiveEndOffset(cur.span.Len()) == next.StartOffset()
  }

  /** The dual merge condition: both the rating and the offset continue. */
  predicate DualMerge(cur: FullSegment<DualInfo>, next: DualInfo) {
    next.ratingInfo.delta == cur.data.ratingInfo.delta
    && next.offsetInfo.drag == cur.data.offsetInfo.drag
    && cur.data.offsetInfo.ExclusiveEndOffset(cur.span.Len()) == next.offsetInfo.StartOffset()
    && cur.data.ratingInfo.ExclusiveEndRating(cur.span.Len()) == next.ratingInfo.StartRating()
  }

  /** A segment `n` that may be merged into the run `c` has, `x` points
      into it, the value the run's function has `x` points past the run's
      end. */
  ghost predicate Continues<D, V>(merge: (FullSegment<D>, D) -> bool, val: (D, int) -> V, c: FullSegment<D>, n: D, x: int) {
    merge(c, n) ==> val(c.data, c.span.Len() + x) == val(n, x)
  }

  /** A merge condition is sound for a value function when every segment
      it lets into a run continues the run. */
  ghost predicate MergeSound<D(!new), V>(merge: (FullSegment<D>, D) -> bool, val: (D, int) -> V) {
    forall c: FullSegment<D>, n: D, x: int :: Continues(merge, val, c, n, x)
  }

  /** No two neighbouring output segments satisfy the merge condition. */
  ghost predicate Maximal<D>(merge: (FullSegment<D>, D) -> bool, fs: seq<FullSegment<D>>) {
    forall i, j :: 0 <= i < j < |fs| && j == i + 1 ==> !merge(fs[i], fs[j].data)
  }

  /** The run-merging state machine: `cur` is the run being grown (the
      source's `current_segment`), `segs` the segments still to be pushed.
      A mergeable segment extends the run's end; any other segment closes
      the run and starts the next one at the run's end. The last run is
      emitted by `finish`. */
  function SimplifyFrom<D>(merge: (FullSegment<D>, D) -> bool, cur: FullSegment<D>, segs: seq<Segment<D>>): (r: seq<FullSegment<D>>)
    ensures 1 <= |r| <= |segs| + 1
    ensures r[0].span.start == cur.span.start && r[0].data == cur.data
    decreases |segs|
  {
    if |segs| == 0 then
      [cur]
    else if merge(cur, segs[0].data) then
      SimplifyFrom(merge, FullSegment(PointSpan(cur.span.start, segs[0].endPoint), cur.data), segs[1..])
    else
      var rest := SimplifyFrom(merge, FullSegment(PointSpan(cur.span.end, segs[0].endPoint), segs[0].data), segs[1..]);
      assert ([cur] + rest)[1..] == rest;
      [cur] + rest
  }

  /** No run could absorb the run after it: a run is closed exactly when
      the next segment does not satisfy the merge condition, and that
      segment opens the next run. */
  lemma {:induction false} SimplifyFromMaximal<D>(merge: (FullSegment<D>, D) -> bool, cur: FullSegment<D>, segs: seq<Segment<D>>)
    ensures Maximal(merge, SimplifyFrom(merge, cur, segs))
    decreases |segs|
  {
    if |segs| > 0 {
      var n := segs[0];
      if merge(cur, n.data) {
        SimplifyFromMaximal(merge, FullSegment(PointSpan(cur.span.start, n.endPoint), cur.data), segs[1..]);
      } else {
        var next := FullSegment(PointSpan(cur.span.end, n.endPoint), n.data);
        var rest := SimplifyFrom(merge, next, segs[1..]);
        var r := [cur] + rest;
        assert SimplifyFrom(merge, cur, segs) == r;
        SimplifyFromMaximal(merge, next, segs[1..]);
        forall i, j | 0 <= i < j < |r| && j == i + 1 ensures !merge(r[i], r[j].data) {
          if i > 0 {
            assert r[i] == rest[i - 1] && r[j] == rest[j - 1];
          }
        }
      }
    }
  }

  /** On increasing input the runs tile `[cur.start, End)`. */
  lemma {:induction false} SimplifyFromTiles<D>(merge: (FullSegment<D>, D) -> bool, cur: FullSegment<D>, segs: seq<Segment<D>>)
    requires cur.span.start < cur.span.end && Increasing(cur.span.end, segs)
    ensures Tiles(cur.span.start, SimplifyFrom(merge, cur, segs))
    ensures FullEnd(cur.span.start, SimplifyFrom(merge, cur, segs)) == End(cur.span.end, segs)
    decreases |segs|
  {
    var s := cur.span.start;
    var e := cur.span.end;
    assert cur == FullSegment(PointSpan(s, e), cur.data);
    if |segs| == 0 {
      assert SimplifyFrom(merge, cur, segs) == [cur] + [];
      ConsTiles(s, e, cur.data, []);
    } else {
      var n := segs[0];
      if merge(cur, n.data) {
        var run := FullSegment(PointSpan(s, n.endPoint), cur.data);
        assert SimplifyFrom(merge, cur, segs) == SimplifyFrom(merge, run, segs[1..]);
        SimplifyFromTiles(merge, run, segs[1..]);
      } else {
        var next := FullSegment(PointSpan(e, n.endPoint), n.data);
        var rest := SimplifyFrom(merge, next, segs[1..]);
        assert SimplifyFrom(merge, cur, segs) == [cur] + rest;
        SimplifyFromTiles(merge, next, segs[1..]);
        ConsTiles(s, e, cur.data, rest);
      }
    }
  }

  /** Every run ends at the first run's end or at an input end point. */
  lemma {:induction false} SimplifyFromEndPoints<D>(merge: (FullSegment<D>, D) -> bool, cur: FullSegment<D>, segs: seq<Segment<D>>)
    ensures EndPoints(DiscardStartTimes(SimplifyFrom(merge, cur, segs))) <= {cur.span.end} + EndPoints(segs)
    decreases |segs|
  {
    var s := cur.span.start;
    var e := cur.span.end;
    assert cur == FullSegment(PointSpan(s, e), cur.data);
    if |segs| == 0 {
      assert SimplifyFrom(merge, cur, segs) == [cur] + [];
      ConsFullEndPoints(s, e, cur.data, []);
    } else {
      EndPointsCons(segs);
      var n := segs[0];
      if merge(cur, n.data) {
        var run := FullSegment(PointSpan(s, n.endPoint), cur.data);
        assert SimplifyFrom(merge, cur, segs) == SimplifyFrom(merge, run, segs[1..]);
        SimplifyFromEndPoints(merge, run, segs[1..]);
      } else {
        var next := FullSegment(PointSpan(e, n.endPoint), n.data);
        var rest := SimplifyFrom(merge, next, segs[1..]);
        assert SimplifyFrom(merge, cur, segs) == [cur] + rest;
        SimplifyFromEndPoints(merge, next, segs[1..]);
        ConsFullEndPoints(s, e, cur.data, rest);
      }
    }
  }

  /** Simplification from `start`: the first segment opens the first run. */
  function SimplifySegments<D>(merge: (FullSegment<D>, D) -> bool, start: int, segs: seq<Segment<D>>): (r: seq<FullSegment<D>>)
    ensures |r| <= |segs|
    ensures |r| == 0 <==> |segs| == 0
  {
    if |segs| == 0 then []
    else SimplifyFrom(merge, FullSegment(PointSpan(start, segs[0].endPoint), segs[0].data), segs[1..])
  }

  /** On increasing input the result tiles the same range and ends only at
      input end points; no two neighbours could be merged. */
  lemma SimplifySegmentsShape<D>(merge: (FullSegment<D>, D) -> bool, start: int, segs: seq<Segment<D>>)
    requires Increasing(start, segs)
    ensures Tiles(start, SimplifySegments(merge, start, segs))
    ensures FullEnd(start, SimplifySegments(merge, start, segs)) == End(start, segs)
    ensures EndPoints(DiscardStartTimes(SimplifySegments(merge, start, segs))) <= EndPoints(segs)
    ensures Maximal(merge, SimplifySegments(merge, start, segs))
  {
    if |segs| > 0 {
      EndPointsCons(segs);
      SimplifyFromMaximal(merge, FullSegment(PointSpan(start, segs[0].endPoint), segs[0].data), segs[1..]);
      SimplifyFromTiles(merge, FullSegment(PointSpan(start, segs[0].endPoint), segs[0].data), segs[1..]);
      SimplifyFromEndPoints(merge, FullSegment(PointSpan(start, segs[0].endPoint), segs[0].data), segs[1..]);
    }
  }

  /** `SimplifyRatingPushIterator` fed with `segs` from `start`. */
  function SimplifyRatings(start: int, segs: seq<Segment<RatingInfo>>): seq<FullSegment<RatingInfo>> {
    SimplifySegments(RatingsMerge, start, segs)
  }

  /** `SimplifyOffsetPushIterator` fed with `segs` from `start`. */
  function SimplifyOffsets(start: int, segs: seq<Segment<OffsetInfo>>): seq<FullSegment<OffsetInfo>> {
    SimplifySegments(OffsetsMerge, start, segs)
  }

  /** `DualIterator::simplify` with its `DualSimplifyIterator`. */
  function DualSimplify(start: int, segs: seq<Segment<DualInfo>>): seq<FullSegment<DualInfo>> {
    SimplifySegments(DualMerge, start, segs)
  }

  /** The run-merging function keeps the value at every point: the output
      from the run's start equals the run followed by the remaining
      segments. */
  lemma {:induction false} SimplifyFromEval<D(!new), V>(merge: (FullSegment<D>, D) -> bool, val: (D, int) -> V,
                                                 cur: FullSegment<D>, segs: seq<Segment<D>>, t: int)
    requires MergeSound(merge, val)
    requires cur.span.start < cur.span.end && Increasing(cur.span.end, segs)
    requires cur.span.start <= t < End(cur.span.end, segs)
    ensures End(cur.span.start, [Segment(cur.span.end, cur.data)] + segs) == End(cur.span.end, segs)
    ensures FullEnd(cur.span.start, SimplifyFrom(merge, cur, segs)) == End(cur.span.end, segs)
    ensures Eval(val, cur.span.start, DiscardStartTimes(SimplifyFrom(merge, cur, segs)), t)
         == Eval(val, cur.span.start, [Segment(cur.span.end, cur.data)] + segs, t)
    decreases |segs|, 1
  {
    SimplifyFromTiles(merge, cur, segs);
    var whole := [Segment(cur.span.end, cur.data)] + segs;
    assert whole[1..] == segs;
    if |segs| == 0 {
      assert SimplifyFrom(merge, cur, segs) == [cur];
      assert DiscardStartTimes([cur]) == whole;
    } else if merge(cur, segs[0].data) {
      MergeStepEval(merge, val, cur, segs, t);
    } else {
      CloseStepEval(merge, val, cur, segs, t);
    }
  }

  /** Growing the run `[s, e)` over the segment `n` it may absorb does not
      change the function. */
  lemma MergeKeepsEval<D(!new), V>(merge: (FullSegment<D>, D) -> bool, val: (D, int) -> V,
                                   cur: FullSegment<D>, n: Segment<D>, tail: seq<Segment<D>>, t: int)
    requires MergeSound(merge, val) && merge(cur, n.data)
    requires cur.span.end < n.endPoint
    requires cur.span.start <= t < End(n.endPoint, tail)
    ensures Eval(val, cur.span.start, [Segment(n.endPoint, cur.data)] + tail, t)
         == Eval(val, cur.span.start, [Segment(cur.span.end, cur.data)] + ([Segment(n.endPoint, n.data)] + tail), t)
  {
    var s := cur.span.start;
    var e := cur.span.end;
    EvalCons(val, s, n.endPoint, cur.data, tail, t);
    EvalCons(val, s, e, cur.data, [Segment(n.endPoint, n.data)] + tail, t);
    if e <= t {
      EvalCons(val, e, n.endPoint, n.data, tail, t);
      assert Continues(merge, val, cur, n.data, t - e);
    }
  }

  /** A merged segment: the grown run is the old run followed by the
      merged segment. */
  lemma {:induction false} MergeStepEval<D(!new), V>(merge: (FullSegment<D>, D) -> bool, val: (D, int) -> V,
                                              cur: FullSegment<D>, segs: seq<Segment<D>>, t: int)
    requires MergeSound(merge, val)
    requires cur.span.start < cur.span.end && Increasing(cur.span.end, segs)
    requires cur.span.start <= t < End(cur.span.end, segs)
    requires |segs| > 0 && merge(cur, segs[0].data)
    requires FullEnd(cur.span.start, SimplifyFrom(merge, cur, segs)) == End(cur.span.end, segs)
    ensures End(cur.span.start, [Segment(cur.span.end, cur.data)] + segs) == End(cur.span.end, segs)
    ensures Eval(val, cur.span.start, DiscardStartTimes(SimplifyFrom(merge, cur, segs)), t)
         == Eval(val, cur.span.start, [Segment(cur.span.end, cur.data)] + segs, t)
    decreases |segs|, 0
  {
    var n := segs[0];
    var run := FullSegment(PointSpan(cur.span.start, n.endPoint), cur.data);
    assert SimplifyFrom(merge, cur, segs) == SimplifyFrom(merge, run, segs[1..]);
    assert segs == [Segment(n.endPoint, n.data)] + segs[1..];
    SimplifyFromEval(merge, val, run, segs[1..], t);
    MergeKeepsEval(merge, val, cur, n, segs[1..], t);
  }

  /** A segment that does not merge: the run is emitted as it is and the
      segment opens the next run. */
  lemma {:induction false} CloseStepEval<D(!new), V>(merge: (FullSegment<D>, D) -> bool, val: (D, int) -> V,
                                              cur: FullSegment<D>, segs: seq<Segment<D>>, t: int)
    requires MergeSound(merge, val)
    requires cur.span.start < cur.span.end && Increasing(cur.span.end, segs)
    requires cur.span.start <= t < End(cur.span.end, segs)
    requires |segs| > 0 && !merge(cur, segs[0].data)
    requires FullEnd(cur.span.start, SimplifyFrom(merge, cur, segs)) == End(cur.span.end, segs)
    ensures End(cur.span.start, [Segment(cur.span.end, cur.data)] + segs) == End(cur.span.end, segs)
    ensures Eval(val, cur.span.start, DiscardStartTimes(SimplifyFrom(merge, cur, segs)), t)
         == Eval(val, cur.span.start, [Segment(cur.span.end, cur.data)] + segs, t)
    decreases |segs|, 0
  {
    var s := cur.span.start;
    var e := cur.span.end;
    var n := segs[0];
    var next := FullSegment(PointSpan(e, n.endPoint), n.data);
    var rest := SimplifyFrom(merge, next, segs[1..]);
    assert SimplifyFrom(merge, cur, segs) == [cur] + rest;
    assert cur == FullSegment(PointSpan(s, e), cur.data);
    SimplifyFromTiles(merge, next, segs[1..]);
    ConsTiles(s, e, cur.data, rest);
    EvalCons(val, s, e, cur.data, segs, t);
    EvalCons(val, s, e, cur.data, DiscardStartTimes(rest), t);
    if e <= t {
      assert segs == [Segment(n.endPoint, n.data)] + segs[1..];
      SimplifyFromEval(merge, val, next, segs[1..], t);
    }
  }

  /** Simplification from `start` keeps the value at every point. */
  lemma SimplifySegmentsEval<D(!new), V>(merge: (FullSegment<D>, D) -> bool, val: (D, int) -> V,
                                   start: int, segs: seq<Segment<D>>, t: int)
    requires MergeSound(merge, val)
    requires Increasing(start, segs)
    requires start <= t < End(start, segs)
    ensures Tiles(start, SimplifySegments(merge, start, segs))
    ensures FullEnd(start, SimplifySegments(merge, start, segs)) == End(start, segs)
    ensures EndPoints(DiscardStartTimes(SimplifySegments(merge, start, segs))) <= EndPoints(segs)
    ensures Maximal(merge, SimplifySegments(merge, start, segs))
    ensures Eval(val, start, DiscardStartTimes(SimplifySegments(merge, start, segs)), t) == Eval(val, start, segs, t)
  {
    SimplifySegmentsShape(merge, start, segs);
    var cur := FullSegment(PointSpan(start, segs[0].endPoint), segs[0].data);
    assert segs == [Segment(cur.span.end, cur.data)] + segs[1..];
    SimplifyFromEval(merge, val, cur, segs[1..], t);
  }

  /** The rating merge condition is sound for ratings. */
  lemma RatingsMergeSound()
    ensures MergeSound(RatingsMerge, RatingValue)
  {
    forall c: FullSegment<RatingInfo>, n: RatingInfo, x: int
      ensures Continues(RatingsMerge, RatingValue, c, n, x)
    {
      assert c.data.delta * (c.span.Len() + x) == c.data.delta * c.span.Len() + c.data.delta * x;
    }
  }

  /** The offset merge condition is sound for offsets. */
  lemma OffsetsMergeSound()
    ensures MergeSound(OffsetsMerge, OffsetValue)
  {
    forall c: FullSegment<OffsetInfo>, n: OffsetInfo, x: int
      ensures Continues(OffsetsMerge, OffsetValue, c, n, x)
    {
    }
  }

  /** The dual merge condition is sound for (rating, offset) pairs. */
  lemma DualMergeSound()
    ensures MergeSound(DualMerge, DualValue)
  {
    forall c: FullSegment<DualInfo>, n: DualInfo, x: int
      ensures Continues(DualMerge, DualValue, c, n, x)
    {
      var r := c.data.ratingInfo;
      assert r.delta * (c.span.Len() + x) == r.delta * c.span.Len() + r.delta * x;
    }
  }

  /** Rating simplification: the result tiles the same range with no more
      segments, keeps the rating at every point, only uses input end
      points, and leaves no two neighbours that could still be merged. */
  lemma SimplifyRatingsCorrect(start: int, segs: seq<Segment<RatingInfo>>, t: int)
    requires Increasing(start, segs)
    requires start <= t < End(start, segs)
    ensures Tiles(start, SimplifyRatings(start, segs))
    ensures FullEnd(start, SimplifyRatings(start, segs)) == End(start, segs)
    ensures |SimplifyRatings(start, segs)| <= |segs|
    ensures EndPoints(DiscardStartTimes(SimplifyRatings(start, segs))) <= EndPoints(segs)
    ensures Maximal(RatingsMerge, SimplifyRatings(start, segs))
    ensures Eval(RatingValue, start, DiscardStartTimes(SimplifyRatings(start, segs)), t)
         == Eval(RatingValue, start, segs, t)
  {
    RatingsMergeSound();
    SimplifySegmentsEval(RatingsMerge, RatingValue, start, segs, t);
  }

  /** Offset simplification keeps the offset at every point, with the same
      structural guarantees. */
  lemma SimplifyOffsetsCorrect(start: int, segs: seq<Segment<OffsetInfo>>, t: int)
    requires Increasing(start, segs)
    requires start <= t < End(start, segs)
    ensures Tiles(start, SimplifyOffsets(start, segs))
    ensures FullEnd(start, SimplifyOffsets(start, segs)) == End(start, segs)
    ensures |SimplifyOffsets(start, segs)| <= |segs|
    ensures EndPoints(DiscardStartTimes(SimplifyOffsets(start, segs))) <= EndPoints(segs)
    ensures Maximal(OffsetsMerge, SimplifyOffsets(start, segs))
    ensures Eval(OffsetValue, start, DiscardStartTimes(SimplifyOffsets(start, segs)), t)
         == Eval(OffsetValue, start, segs, t)
  {
    OffsetsMergeSound();
    SimplifySegmentsEval(OffsetsMerge, OffsetValue, start, segs, t);
  }

  /** Dual simplification keeps both the rating and the offset at every
      point, with the same structural guarantees. */
  lemma DualSimplifyCorrect(start: int, segs: seq<Segment<DualInfo>>, t: int)
    requires Increasing(start, segs)
    requires start <= t < End(start, segs)
    ensures Tiles(start, DualSimplify(start, segs))
    ensures FullEnd(start, DualSimplify(start, segs)) == End(start, segs)
    ensures |DualSimplify(start, segs)| <= |segs|
    ensures EndPoints(DiscardStartTimes(DualSimplify(start, segs))) <= EndPoints(segs)
    ensures Maximal(DualMerge, DualSimplify(start, segs))
    ensures Eval(DualValue, start, DiscardStartTimes(DualSimplify(start, segs)), t)
         == Eval(DualValue, start, segs, t)
  {
    DualMergeSound();
    SimplifySegmentsEval(DualMerge, DualValue, start, segs, t);
  }
}
