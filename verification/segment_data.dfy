/** The per-segment data of ilass-core's segment algebra (segments.rs): a
    span of time points, the linear rating of a segment, and the constant or
    slope-one offset of a segment. Ratings, rating deltas, time deltas and
    points are all unbounded integers; `add_mul(r, d, l)` is `r + d * l`. */
module SegmentData {
  import Arith

  /** A half-open span `[start, end)` of time points. `PointSpan::new`
      asserts `start < end`; every span built by the model satisfies it. */
  datatype PointSpan = PointSpan(start: int, end: int) {

    function Len(): int { end - start }
  }

  /** The offset of a segment: constant (`drag == false`) or growing by one
      per time point (`drag == true`). */
  datatype OffsetInfo = OffsetInfo(offset: int, drag: bool) {

    function StartOffset(): int { offset }

    /** Offset at the last point of a span of `spanLength` points. */
    function EndOffset(spanLength: int): int {
      if drag then offset + (spanLength - 1) else offset
    }

    /** Offset one point past the end of a span of `spanLength` points. */
    function ExclusiveEndOffset(spanLength: int): int {
      if drag then offset + spanLength else offset
    }

    /** Offset `timeDelta` points after the segment start. */
    function AdvancedOffset(timeDelta: int): int {
      if drag then offset + timeDelta else offset
    }

    /** The same offset function, re-based `timeDelta` points later. */
    function Advanced(timeDelta: int): (r: OffsetInfo)
      ensures r.drag == drag
      ensures forall x :: r.AdvancedOffset(x) == AdvancedOffset(timeDelta + x)
    {
      if drag then OffsetInfo(offset + timeDelta, true) else OffsetInfo(offset, false)
    }
  }

  function ConstantOffset(offset: int): OffsetInfo { OffsetInfo(offset, false) }

  /** The rating of a segment: `rating` at the segment start, changing by
      `delta` per time point. */
  datatype RatingInfo = RatingInfo(rating: int, delta: int) {

    /** Rating `len` points after the segment start. */
    function GetAt(len: int): int { rating + delta * len }

    function StartRating(): int { rating }

    /** Rating at the last point of a span of `len` points. */
    function EndRating(len: int): int { rating + delta * (len - 1) }

    /** Rating one point past the end of a span of `len` points. */
    function ExclusiveEndRating(len: int): int { rating + delta * len }

    /** The same linear function, re-based `len` points later. */
    function Advanced(len: int): (r: RatingInfo)
      ensures r.delta == delta
      ensures forall x :: r.GetAt(x) == GetAt(len + x)
    {
      var r := RatingInfo(rating + delta * len, delta);
      assert forall x :: r.GetAt(x) == GetAt(len + x) by {
        forall x ensures r.GetAt(x) == GetAt(len + x) {
          assert delta * len + delta * x == delta * (len + x);
        }
      }
      r
    }

    /** `impl Add for RatingInfo`: pointwise sum of two linear functions. */
    function Plus(rhs: RatingInfo): (r: RatingInfo)
      ensures forall x :: r.GetAt(x) == GetAt(x) + rhs.GetAt(x)
    {
      var r := RatingInfo(rating + rhs.rating, delta + rhs.delta);
      assert forall x :: r.GetAt(x) == GetAt(x) + rhs.GetAt(x) by {
        forall x ensures r.GetAt(x) == GetAt(x) + rhs.GetAt(x) {
          assert (delta + rhs.delta) * x == delta * x + rhs.delta * x;
        }
      }
      r
    }
  }

  function ConstantRating(rating: int): RatingInfo { RatingInfo(rating, 0) }

  /** Rating and offset of one segment of a dual (rating + offset) function. */
  datatype DualInfo = DualInfo(offsetInfo: OffsetInfo, ratingInfo: RatingInfo) {

    function Advanced(len: int): DualInfo {
      DualInfo(offsetInfo.Advanced(len), ratingInfo.Advanced(len))
    }
  }

  /** `advance` of a rating and of a dual segment, as function values. */
  function AdvanceRating(d: RatingInfo, len: int): RatingInfo { d.Advanced(len) }

  function AdvanceDual(d: DualInfo, len: int): DualInfo { d.Advanced(len) }

  // Value functions: the value of one segment's data `x` points after the
  // segment start. They are passed to the generic evaluator `Eval`.

  function RatingValue(r: RatingInfo, x: int): int { r.GetAt(x) }

  function OffsetValue(o: OffsetInfo, x: int): int { o.AdvancedOffset(x) }

  function DualRating(d: DualInfo, x: int): int { d.ratingInfo.GetAt(x) }

  function DualOffset(d: DualInfo, x: int): int { d.offsetInfo.AdvancedOffset(x) }

  /** The (rating, offset) pair of a dual segment. */
  function DualValue(d: DualInfo, x: int): (int, int) {
    (d.ratingInfo.GetAt(x), d.offsetInfo.AdvancedOffset(x))
  }

  /** Advancing a dual segment re-bases both its rating and its offset. */
  lemma DualAdvancedValue(d: DualInfo, len: int, x: int)
    ensures DualValue(d.Advanced(len), x) == DualValue(d, len + x)
  {
  }

  /** A linear function on `[0, n]` is bounded by its value at one of the ends. */
  lemma LinearBetweenEnds(r: RatingInfo, x: int, n: int)
    requires 0 <= x <= n
    ensures r.GetAt(x) <= Arith.Max(r.GetAt(0), r.GetAt(n))
  {
    if r.delta >= 0 {
      assert r.delta * (n - x) >= 0;
      assert r.delta * n == r.delta * x + r.delta * (n - x);
    } else {
      assert r.delta * x <= 0;
    }
  }

  /** A linear function with a non-negative delta does not decrease. */
  lemma RisingMonotone(r: RatingInfo, a: int, b: int)
    requires r.delta >= 0 && a <= b
    ensures r.GetAt(a) <= r.GetAt(b)
  {
    assert r.GetAt(b) - r.GetAt(a) == r.delta * (b - a);
  }

  /** A linear function that is higher at `n` than at `0` rises. */
  lemma RisingEnds(r: RatingInfo, n: int)
    requires n >= 0 && r.GetAt(0) < r.GetAt(n)
    ensures r.delta > 0
  {
    assert r.GetAt(n) - r.GetAt(0) == r.delta * n;
  }
}
