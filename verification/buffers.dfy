/** The materialised buffers of segments.rs: the offset look-ups of
    `OffsetBuffer` and the maximum search of `RatingBuffer`. */
module Buffers {
  import opened Arith
  import opened SegmentData
  import opened SegmentSeq

  /** `OffsetBuffer::get_offset_at`: walk the segments until the one whose
      span contains `t`. The source asserts that `t` lies in
      `[start, last end point)`; under that assertion the loop always finds
      a segment (its `unreachable!()` is dead), even for end points that are
      not increasing, and the answer is the function's value at `t`. */
  method GetOffsetAt(start: int, segs: seq<Segment<OffsetInfo>>, t: int) returns (r: int)
    requires start <= t < End(start, segs)
    ensures r == Eval(OffsetValue, start, segs, t)
  {
    var i := 0;
    var segStart := start;
    while !(segStart <= t < segs[i].endPoint)
      invariant 0 <= i < |segs|
      invariant segStart <= t < End(segStart, segs[i..]) == End(start, segs)
      invariant Eval(OffsetValue, segStart, segs[i..], t) == Eval(OffsetValue, start, segs, t)
      decreases |segs| - i
    {
      assert segs[i..][1..] == segs[i + 1..];
      segStart := segs[i].endPoint;
      i := i + 1;
    }
    r := segs[i].data.AdvancedOffset(t - segStart);
  }

  /** `OffsetBuffer::end_offset`: the offset at the last point of the last
      segment. The source asserts a non-empty buffer. */
  function EndOffset(start: int, segs: seq<Segment<OffsetInfo>>): int
    requires |segs| > 0
  {
    var n := |segs|;
    var segStart := if n == 1 then start else segs[n - 2].endPoint;
    segs[n - 1].data.EndOffset(segs[n - 1].endPoint - segStart)
  }

  /** On an increasing buffer, `end_offset` is the function's value at the
      last covered point. */
  lemma EndOffsetIsLastValue(start: int, segs: seq<Segment<OffsetInfo>>)
    requires |segs| > 0 && Increasing(start, segs)
    ensures start <= End(start, segs) - 1
    ensures EndOffset(start, segs) == Eval(OffsetValue, start, segs, End(start, segs) - 1)
  {
    var n := |segs|;
    var init := segs[..n - 1];
    var last := segs[n - 1];
    assert Append(init, last.endPoint, last.data) == segs;
    IncreasingBounds(start, segs);
    AppendExtends(OffsetValue, start, init, last.endPoint, last.data, End(start, segs) - 1);
  }

  /** One step of the fold of `RatingBuffer::maximum` as written. The source
      asserts that every segment is non-empty. */
  function MaximumStepAsWritten(curMax: int, curPoint: int, segStart: int, seg: Segment<RatingInfo>): (int, int)
    requires segStart < seg.endPoint
  {
    var startRating := seg.data.StartRating();
    var endRating := seg.data.EndRating(seg.endPoint - segStart);
    if startRating > curMax then (startRating, segStart)
    else if endRating > curMax then (startRating, seg.endPoint - 1)
    else (curMax, curPoint)
  }

  function MaximumFromAsWritten(curMax: int, curPoint: int, segStart: int, segs: seq<Segment<RatingInfo>>): (int, int)
    requires Increasing(segStart, segs)
    decreases |segs|
  {
    if |segs| == 0 then (curMax, curPoint)
    else
      var (m, p) := MaximumStepAsWritten(curMax, curPoint, segStart, segs[0]);
      MaximumFromAsWritten(m, p, segs[0].endPoint, segs[1..])
  }

  /** `RatingBuffer::maximum` as written: a fold from `(0, start)`. */
  function MaximumAsWritten(start: int, segs: seq<Segment<RatingInfo>>): (int, int)
    requires Increasing(start, segs)
  {
    MaximumFromAsWritten(0, start, start, segs)
  }

  /** In the end-rating branch the fold stores the start rating: on a single
      rising segment from rating 0 it reports 0 at point 1 although the
      rating there is 5. */
  lemma MaximumAsWrittenStoresStartRating()
    ensures MaximumAsWritten(0, [Segment(2, RatingInfo(0, 5))]) == (0, 1)
    ensures Eval(RatingValue, 0, [Segment(2, RatingInfo(0, 5))], 1) == 5
  {
  }

  /** A segment whose start rating already beats the running maximum is
      recorded at its start even when its end rating is larger still. */
  lemma MaximumAsWrittenMissesRisingEnd()
    ensures MaximumAsWritten(0, [Segment(2, RatingInfo(1, 5))]) == (1, 0)
    ensures Eval(RatingValue, 0, [Segment(2, RatingInfo(1, 5))], 1) == 6
  {
  }

  /** Because the end-rating branch stores the start rating, the fold can
      report less than a rating it has already passed: after a constant
      segment at 5 comes one rising from 0, and the fold ends on rating 0. */
  lemma MaximumAsWrittenLowers()
    ensures MaximumAsWritten(0, [Segment(1, RatingInfo(5, 0)), Segment(3, RatingInfo(0, 10))]) == (0, 2)
    ensures Eval(RatingValue, 0, [Segment(1, RatingInfo(5, 0)), Segment(3, RatingInfo(0, 10))], 0) == 5
  {
  }

  /** One step of the corrected fold: a linear segment is largest at one of
      its ends, so both ends are compared against the running maximum and the
      larger end (the earlier one on a tie) is recorded with its own rating. */
  function MaximumStep(curMax: int, curPoint: int, segStart: int, seg: Segment<RatingInfo>): (int, int)
    requires segStart < seg.endPoint
  {
    var startRating := seg.data.StartRating();
    var endRating := seg.data.EndRating(seg.endPoint - segStart);
    if Max(startRating, endRating) <= curMax then (curMax, curPoint)
    else if startRating >= endRating then (startRating, segStart)
    else (endRating, seg.endPoint - 1)
  }

  function MaximumFrom(curMax: int, curPoint: int, segStart: int, segs: seq<Segment<RatingInfo>>): (int, int)
    requires Increasing(segStart, segs)
    decreases |segs|
  {
    if |segs| == 0 then (curMax, curPoint)
    else
      var (m, p) := MaximumStep(curMax, curPoint, segStart, segs[0]);
      MaximumFrom(m, p, segs[0].endPoint, segs[1..])
  }

  /** The corrected `RatingBuffer::maximum`: the fold from `(0, start)`. */
  function Maximum(start: int, segs: seq<Segment<RatingInfo>>): (int, int)
    requires Increasing(start, segs)
  {
    MaximumFrom(0, start, start, segs)
  }

  /** The corrected fold bounds every value it passes and never lowers the
      running maximum; its result is either the state it started from or a
      point of the range together with the rating there. */
  lemma {:induction false} MaximumFromBounds(curMax: int, curPoint: int, segStart: int, segs: seq<Segment<RatingInfo>>)
    requires Increasing(segStart, segs)
    ensures MaximumFrom(curMax, curPoint, segStart, segs).0 >= curMax
    ensures forall t :: segStart <= t < End(segStart, segs) ==>
      Eval(RatingValue, segStart, segs, t) <= MaximumFrom(curMax, curPoint, segStart, segs).0
    ensures var (m, p) := MaximumFrom(curMax, curPoint, segStart, segs);
      (m, p) == (curMax, curPoint) || (segStart <= p < End(segStart, segs) && Eval(RatingValue, segStart, segs, p) == m)
    decreases |segs|
  {
    if |segs| > 0 {
      var e := segs[0].endPoint;
      var d := segs[0].data;
      var (m, p) := MaximumStep(curMax, curPoint, segStart, segs[0]);
      MaximumFromBounds(m, p, e, segs[1..]);
      IncreasingBounds(segStart, segs);
      var res := MaximumFrom(curMax, curPoint, segStart, segs);
      assert res == MaximumFrom(m, p, e, segs[1..]);
      forall t | segStart <= t < End(segStart, segs)
        ensures Eval(RatingValue, segStart, segs, t) <= res.0
      {
        if t < e {
          LinearBetweenEnds(d, t - segStart, e - segStart - 1);
        } else {
          EvalTail(RatingValue, segStart, segs, t);
        }
      }
      if res == (m, p) && (m, p) != (curMax, curPoint) {
        assert segStart <= p < e;
      } else if res != (m, p) {
        EvalTail(RatingValue, segStart, segs, res.1);
      }
    }
  }

  /** The corrected `maximum`: its rating bounds the function everywhere and
      is non-negative; it is either the initial `(0, start)` or the rating
      at the reported point. */
  lemma MaximumIsMaximum(start: int, segs: seq<Segment<RatingInfo>>)
    requires Increasing(start, segs)
    ensures Maximum(start, segs).0 >= 0
    ensures forall t :: start <= t < End(start, segs) ==> Eval(RatingValue, start, segs, t) <= Maximum(start, segs).0
    ensures Maximum(start, segs) == (0, start)
         || (start <= Maximum(start, segs).1 < End(start, segs)
             && Eval(RatingValue, start, segs, Maximum(start, segs).1) == Maximum(start, segs).0)
  {
    MaximumFromBounds(0, start, start, segs);
  }
  /** The as-written fold never reports more than the corrected fold started
      from a running maximum at least as large: an as-written step stores the
      running maximum or a start rating, and the corrected step's result
      bounds both. */
  lemma {:induction false} MaximumFromAsWrittenBelow(m: int, p: int, m': int, p': int, segStart: int, segs: seq<Segment<RatingInfo>>)
    requires Increasing(segStart, segs) && m <= m'
    ensures MaximumFromAsWritten(m, p, segStart, segs).0 <= MaximumFrom(m', p', segStart, segs).0
    decreases |segs|
  {
    if |segs| > 0 {
      var (a, q) := MaximumStepAsWritten(m, p, segStart, segs[0]);
      var (b, q') := MaximumStep(m', p', segStart, segs[0]);
      MaximumFromAsWrittenBelow(a, q, b, q', segs[0].endPoint, segs[1..]);
    }
  }

  /** `maximum` as written errs only downwards: its rating is at most the
      corrected maximum, so it never reports a rating above the function. */
  lemma MaximumAsWrittenBelow(start: int, segs: seq<Segment<RatingInfo>>)
    requires Increasing(start, segs)
    ensures MaximumAsWritten(start, segs).0 <= Maximum(start, segs).0
  {
    MaximumFromAsWrittenBelow(0, start, 0, start, start, segs);
  }
}
