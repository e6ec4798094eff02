/** The element-wise adaptors of segments.rs: `extend_to` with its
    `ExtendToIterator`, `clamp_end`, `add_rating`, the projections
    `only_ratings` / `only_offsets` and `annotate_with_offset_info`. */
module SegmentOps {
  import opened Wrappers
  import opened Arith
  import opened SegmentData
  import opened SegmentSeq

  /** The state machine of `ExtendToIterator`: input segments pass through;
      one that ends exactly at `endPoint` drops the pending extension; when
      the input is exhausted the pending extension, if any, is emitted. */
  function ExtendToFrom<D>(segs: seq<Segment<D>>, endPoint: int, pending: Option<D>): seq<Segment<D>>
    requires forall i :: 0 <= i < |segs| ==> segs[i].endPoint <= endPoint
    decreases |segs|
  {
    if |segs| == 0 then
      match pending
      case Some(d) => [Segment(endPoint, d)]
      case None => []
    else
      [segs[0]] + ExtendToFrom(segs[1..], endPoint, if segs[0].endPoint == endPoint then None else pending)
  }

  /** What the state machine emits: the input, then the extension unless an
      input segment already ends at `endPoint`. */
  lemma {:induction false} ExtendToFromResult<D>(segs: seq<Segment<D>>, endPoint: int, pending: Option<D>)
    requires forall i :: 0 <= i < |segs| ==> segs[i].endPoint <= endPoint
    ensures (exists i :: 0 <= i < |segs| && segs[i].endPoint == endPoint) || pending.None? ==>
      ExtendToFrom(segs, endPoint, pending) == segs
    ensures (forall i :: 0 <= i < |segs| ==> segs[i].endPoint != endPoint) && pending.Some? ==>
      ExtendToFrom(segs, endPoint, pending) == segs + [Segment(endPoint, pending.value)]
    decreases |segs|
  {
    if |segs| > 0 {
      var next := if segs[0].endPoint == endPoint then None else pending;
      ExtendToFromResult(segs[1..], endPoint, next);
      assert [segs[0]] + segs[1..] == segs;
      if exists i :: 0 <= i < |segs| && segs[i].endPoint == endPoint {
        var i :| 0 <= i < |segs| && segs[i].endPoint == endPoint;
        if i > 0 {
          assert segs[1..][i - 1].endPoint == endPoint;
        }
      }
      if (forall i :: 0 <= i < |segs| ==> segs[i].endPoint != endPoint) && pending.Some? {
        assert [segs[0]] + (segs[1..] + [Segment(endPoint, pending.value)]) == segs + [Segment(endPoint, pending.value)];
      }
    }
  }

  /** `RatingIterator::extend_to`: the source asserts that no input segment
      ends after `endPoint`; missing coverage is filled with a zero rating. */
  function ExtendTo(segs: seq<Segment<RatingInfo>>, endPoint: int): (r: seq<Segment<RatingInfo>>)
    requires forall i :: 0 <= i < |segs| ==> segs[i].endPoint <= endPoint
    ensures (exists i :: 0 <= i < |segs| && segs[i].endPoint == endPoint) ==> r == segs
    ensures (forall i :: 0 <= i < |segs| ==> segs[i].endPoint != endPoint) ==>
      r == segs + [Segment(endPoint, ConstantRating(0))]
  {
    ExtendToFromResult(segs, endPoint, Some(ConstantRating(0)));
    ExtendToFrom(segs, endPoint, Some(ConstantRating(0)))
  }

  /** On an increasing input that starts before `endPoint`, `extend_to` keeps
      the function, ends exactly at `endPoint`, and is zero on the added part;
      an empty input becomes the single zero segment `[start, endPoint)`. */
  lemma ExtendToCovers(start: int, segs: seq<Segment<RatingInfo>>, endPoint: int, t: int)
    requires Increasing(start, segs) && start < endPoint
    requires forall i :: 0 <= i < |segs| ==> segs[i].endPoint <= endPoint
    ensures Increasing(start, ExtendTo(segs, endPoint))
    ensures End(start, ExtendTo(segs, endPoint)) == endPoint
    ensures |ExtendTo(segs, endPoint)| == if End(start, segs) == endPoint then |segs| else |segs| + 1
    ensures |segs| == 0 ==> ExtendTo(segs, endPoint) == [Segment(endPoint, ConstantRating(0))]
    ensures start <= t < End(start, segs) ==>
      Eval(RatingValue, start, ExtendTo(segs, endPoint), t) == Eval(RatingValue, start, segs, t)
    ensures start <= t && End(start, segs) <= t < endPoint ==> Eval(RatingValue, start, ExtendTo(segs, endPoint), t) == 0
  {
    IncreasingBounds(start, segs);
    if End(start, segs) == endPoint {
      assert segs[|segs| - 1].endPoint == endPoint;
    } else {
      forall i | 0 <= i < |segs| ensures segs[i].endPoint != endPoint {
        assert segs[i].endPoint <= End(start, segs);
      }
      AppendExtends(RatingValue, start, segs, endPoint, ConstantRating(0), t);
    }
  }

  /** `clamp_end`: every end point is cut down to `clamp`. */
  function ClampEnd(segs: seq<Segment<RatingInfo>>, clamp: int): (r: seq<Segment<RatingInfo>>)
    ensures |r| == |segs|
    ensures forall i :: 0 <= i < |segs| ==> r[i] == Segment(Min(segs[i].endPoint, clamp), segs[i].data)
    decreases |segs|
  {
    if |segs| == 0 then [] else [Segment(Min(segs[0].endPoint, clamp), segs[0].data)] + ClampEnd(segs[1..], clamp)
  }

  /** When only the last segment reaches past `clamp`, clamping truncates
      the function at `clamp` and changes nothing before it. */
  lemma {:induction false} ClampEndTruncates(start: int, segs: seq<Segment<RatingInfo>>, clamp: int, t: int)
    requires Increasing(start, segs) && start < clamp
    requires forall i :: 0 <= i < |segs| - 1 ==> segs[i].endPoint < clamp
    ensures Increasing(start, ClampEnd(segs, clamp))
    ensures End(start, ClampEnd(segs, clamp)) == Min(End(start, segs), clamp)
    ensures start <= t < Min(End(start, segs), clamp) ==>
      Eval(RatingValue, start, ClampEnd(segs, clamp), t) == Eval(RatingValue, start, segs, t)
    decreases |segs|
  {
    if |segs| > 0 {
      var r := ClampEnd(segs, clamp);
      assert r[1..] == ClampEnd(segs[1..], clamp);
      if |segs| > 1 {
        assert forall i :: 0 <= i < |segs[1..]| - 1 ==> segs[1..][i] == segs[i + 1];
        ClampEndTruncates(segs[0].endPoint, segs[1..], clamp, t);
      }
    }
  }

  /** Conversely, when two segments reach `clamp` the clamped sequence has
      two equal end points, which later `PointSpan::new` calls reject. */
  lemma ClampEndCollapses(start: int, segs: seq<Segment<RatingInfo>>, clamp: int)
    requires Increasing(start, segs)
    requires |segs| >= 2 && segs[|segs| - 2].endPoint >= clamp
    ensures !Increasing(start, ClampEnd(segs, clamp))
  {
    IncreasingBounds(start, segs);
    var r := ClampEnd(segs, clamp);
    assert r[|segs| - 2].endPoint == r[|segs| - 1].endPoint;
    if Increasing(start, r) {
      IncreasingBounds(start, r);
    }
  }

  /** `add_rating`: add a constant to every segment's start rating. */
  function AddRating(segs: seq<Segment<RatingInfo>>, ratingDelta: int): (r: seq<Segment<RatingInfo>>)
    ensures |r| == |segs|
    ensures forall i :: 0 <= i < |segs| ==>
      r[i] == Segment(segs[i].endPoint, RatingInfo(segs[i].data.rating + ratingDelta, segs[i].data.delta))
    decreases |segs|
  {
    if |segs| == 0 then []
    else
      var d := segs[0].data;
      [Segment(segs[0].endPoint, RatingInfo(d.rating + ratingDelta, d.delta))] + AddRating(segs[1..], ratingDelta)
  }

  /** `add_rating` keeps the range of the function. */
  lemma AddRatingEnd(start: int, segs: seq<Segment<RatingInfo>>, ratingDelta: int)
    ensures End(start, AddRating(segs, ratingDelta)) == End(start, segs)
  {
    var r := AddRating(segs, ratingDelta);
    if |segs| > 0 {
      assert r[|r| - 1].endPoint == segs[|segs| - 1].endPoint;
    }
  }

  /** `add_rating` raises the rating function by the constant everywhere. */
  lemma {:induction false} AddRatingRaises(start: int, segs: seq<Segment<RatingInfo>>, ratingDelta: int, t: int)
    requires start <= t < End(start, segs)
    ensures End(start, AddRating(segs, ratingDelta)) == End(start, segs)
    ensures Eval(RatingValue, start, AddRating(segs, ratingDelta), t) == Eval(RatingValue, start, segs, t) + ratingDelta
    decreases |segs|
  {
    AddRatingEnd(start, segs, ratingDelta);
    var r := AddRating(segs, ratingDelta);
    var head := Segment(segs[0].endPoint, RatingInfo(segs[0].data.rating + ratingDelta, segs[0].data.delta));
    assert r == [head] + AddRating(segs[1..], ratingDelta);
    if t >= segs[0].endPoint {
      AddRatingEnd(segs[0].endPoint, segs[1..], ratingDelta);
      assert r[1..] == AddRating(segs[1..], ratingDelta);
      assert Eval(RatingValue, start, segs, t) == Eval(RatingValue, segs[0].endPoint, segs[1..], t);
      assert Eval(RatingValue, start, r, t) == Eval(RatingValue, segs[0].endPoint, r[1..], t);
      AddRatingRaises(segs[0].endPoint, segs[1..], ratingDelta, t);
    } else {
      assert Eval(RatingValue, start, r, t) == head.data.GetAt(t - start);
      assert Eval(RatingValue, start, segs, t) == segs[0].data.GetAt(t - start);
    }
  }

  /** `only_ratings`: the rating half of a dual function. */
  function OnlyRatings(segs: seq<Segment<DualInfo>>): (r: seq<Segment<RatingInfo>>)
    ensures |r| == |segs|
    ensures forall i :: 0 <= i < |segs| ==> r[i] == Segment(segs[i].endPoint, segs[i].data.ratingInfo)
    decreases |segs|
  {
    if |segs| == 0 then [] else [Segment(segs[0].endPoint, segs[0].data.ratingInfo)] + OnlyRatings(segs[1..])
  }

  /** `only_offsets`: the offset half of a dual function. */
  function OnlyOffsets(segs: seq<Segment<DualInfo>>): (r: seq<Segment<OffsetInfo>>)
    ensures |r| == |segs|
    ensures forall i :: 0 <= i < |segs| ==> r[i] == Segment(segs[i].endPoint, segs[i].data.offsetInfo)
    decreases |segs|
  {
    if |segs| == 0 then [] else [Segment(segs[0].endPoint, segs[0].data.offsetInfo)] + OnlyOffsets(segs[1..])
  }

  /** The projections keep the end points and read the same values as the
      dual function they come from. */
  lemma {:induction false} ProjectionsAgree(start: int, segs: seq<Segment<DualInfo>>, t: int)
    requires start <= t < End(start, segs)
    ensures End(start, OnlyRatings(segs)) == End(start, segs) == End(start, OnlyOffsets(segs))
    ensures Eval(RatingValue, start, OnlyRatings(segs), t) == Eval(DualRating, start, segs, t)
    ensures Eval(OffsetValue, start, OnlyOffsets(segs), t) == Eval(DualOffset, start, segs, t)
    decreases |segs|
  {
    assert OnlyRatings(segs)[1..] == OnlyRatings(segs[1..]);
    assert OnlyOffsets(segs)[1..] == OnlyOffsets(segs[1..]);
    if t >= segs[0].endPoint {
      ProjectionsAgree(segs[0].endPoint, segs[1..], t);
    }
  }

  /** `annotate_with_offset_info`: turn a rating tiling into a dual tiling
      whose offset starts at `offsetOf(span start)` and drags along. */
  function AnnotateWithOffsetInfo(fs: seq<FullSegment<RatingInfo>>, offsetOf: int -> int): (r: seq<FullSegment<DualInfo>>)
    ensures |r| == |fs|
    ensures forall i :: 0 <= i < |fs| ==> r[i].span == fs[i].span
    decreases |fs|
  {
    if |fs| == 0 then []
    else
      var info := DualInfo(OffsetInfo(offsetOf(fs[0].span.start), true), fs[0].data);
      [FullSegment(fs[0].span, info)] + AnnotateWithOffsetInfo(fs[1..], offsetOf)
  }

  /** The annotated tiling has the same spans as the input. */
  lemma {:induction false} AnnotateWithOffsetInfoTiles(start: int, fs: seq<FullSegment<RatingInfo>>, offsetOf: int -> int)
    requires Tiles(start, fs)
    ensures Tiles(start, AnnotateWithOffsetInfo(fs, offsetOf))
    ensures FullEnd(start, AnnotateWithOffsetInfo(fs, offsetOf)) == FullEnd(start, fs)
    decreases |fs|
  {
    var r := AnnotateWithOffsetInfo(fs, offsetOf);
    if |fs| > 0 {
      assert r[1..] == AnnotateWithOffsetInfo(fs[1..], offsetOf);
      assert r[0].span == fs[0].span;
      AnnotateWithOffsetInfoTiles(fs[0].span.end, fs[1..], offsetOf);
      assert DiscardStartTimes(r)[1..] == DiscardStartTimes(r[1..]);
      assert DiscardStartTimes(fs)[1..] == DiscardStartTimes(fs[1..]);
    }
  }

  /** The annotated tiling keeps the ratings, and its offset at `t` is
      `offsetOf` of the containing span's start plus the distance from that
      start. */
  lemma {:induction false} AnnotateWithOffsetInfoValues(start: int, fs: seq<FullSegment<RatingInfo>>, offsetOf: int -> int, t: int)
    requires Tiles(start, fs)
    requires start <= t < FullEnd(start, fs)
    ensures FullEnd(start, AnnotateWithOffsetInfo(fs, offsetOf)) == FullEnd(start, fs)
    ensures Eval(DualRating, start, DiscardStartTimes(AnnotateWithOffsetInfo(fs, offsetOf)), t)
         == Eval(RatingValue, start, DiscardStartTimes(fs), t)
    ensures Eval(DualOffset, start, DiscardStartTimes(AnnotateWithOffsetInfo(fs, offsetOf)), t)
         == offsetOf(StartAt(start, DiscardStartTimes(fs), t)) + (t - StartAt(start, DiscardStartTimes(fs), t))
    decreases |fs|
  {
    AnnotateWithOffsetInfoTiles(start, fs, offsetOf);
    var r := AnnotateWithOffsetInfo(fs, offsetOf);
    var dr := DiscardStartTimes(r);
    var df := DiscardStartTimes(fs);
    var e := fs[0].span.end;
    assert r[1..] == AnnotateWithOffsetInfo(fs[1..], offsetOf);
    assert dr[1..] == DiscardStartTimes(r[1..]);
    assert df[1..] == DiscardStartTimes(fs[1..]);
    assert dr[0].endPoint == e && df[0].endPoint == e;
    if t >= e {
      AnnotateWithOffsetInfoValues(e, fs[1..], offsetOf, t);
      EvalTail(DualRating, start, dr, t);
      EvalTail(DualOffset, start, dr, t);
      EvalTail(RatingValue, start, df, t);
    } else {
      assert dr[0].data == DualInfo(OffsetInfo(offsetOf(start), true), fs[0].data);
    }
  }
}
