/** `DifferentialRatingBufferBuilder` and `DifferentialRatingBuffer` of
    segments.rs: a rating function given by its second differences. Each
    stored segment `(e, dd)` adds a ramp of slope `dd` that starts at `e`;
    `into_rating_iter` integrates the ramps into linear segments. */
module Differential {
  import opened SegmentData
  import opened SegmentSeq

  /** The builder: the covered range `[start, end)` and the delta-deltas
      stored by end point. */
  datatype Builder = Builder(start: int, end: int, buffer: seq<Segment<int>>)

  /** The ramp a stored delta-delta contributes at time `t`. */
  function Ramp(p: Segment<int>, t: int): int {
    if p.endPoint <= t then p.data * (t - p.endPoint) else 0
  }

  /** A stored delta-delta read as a (constant) segment value. */
  function DeltaDeltaValue(dd: int, x: int): int { dd }

  /** The sum of all ramps of a buffer at time `t`: the rating function the
      buffer stands for. */
  function RampSum(buf: seq<Segment<int>>, t: int): int
    decreases |buf|
  {
    if |buf| == 0 then 0 else Ramp(buf[0], t) + RampSum(buf[1..], t)
  }

  /** The sum of all delta-deltas of a buffer. */
  function DeltaSum(buf: seq<Segment<int>>): int
    decreases |buf|
  {
    if |buf| == 0 then 0 else buf[0].data + DeltaSum(buf[1..])
  }

  lemma {:induction false} RampSumAppend(buf: seq<Segment<int>>, p: Segment<int>, t: int)
    ensures RampSum(buf + [p], t) == RampSum(buf, t) + Ramp(p, t)
    decreases |buf|
  {
    if |buf| == 0 {
      assert [p][1..] == [];
    } else {
      assert (buf + [p])[1..] == buf[1..] + [p];
      RampSumAppend(buf[1..], p, t);
    }
  }

  lemma {:induction false} DeltaSumAppend(buf: seq<Segment<int>>, p: Segment<int>)
    ensures DeltaSum(buf + [p]) == DeltaSum(buf) + p.data
    decreases |buf|
  {
    if |buf| == 0 {
      assert [p][1..] == [];
    } else {
      assert (buf + [p])[1..] == buf[1..] + [p];
      DeltaSumAppend(buf[1..], p);
    }
  }

  /** Ramps that start after `t` contribute nothing. */
  lemma {:induction false} RampSumBefore(buf: seq<Segment<int>>, t: int)
    requires forall i :: 0 <= i < |buf| ==> t < buf[i].endPoint
    ensures RampSum(buf, t) == 0
    decreases |buf|
  {
    if |buf| > 0 {
      assert forall i :: 0 <= i < |buf[1..]| ==> buf[1..][i] == buf[i + 1];
      RampSumBefore(buf[1..], t);
    }
  }

  /** `DifferentialRatingBufferBuilder::new` asserts `start < end`. */
  function NewBuilder(start: int, end: int): (b: Builder)
    requires start < end
    ensures b.start == start && b.end == end && |b.buffer| == 0
    ensures forall t :: RampSum(b.buffer, t) == 0
  {
    Builder(start, end, [])
  }

  /** The two `assert!`s of `add_segment`: the new end point is not before
      the last stored one, and the first one lies after `start`. */
  predicate CanAdd(b: Builder, segEnd: int) {
    if |b.buffer| > 0 then b.buffer[|b.buffer| - 1].endPoint <= segEnd else b.start < segEnd
  }

  /** `add_segment`: an end point equal to the last stored one merges by
      adding the delta-delta; any other is pushed. Either way the buffer
      gains the ramp `dd` from `segEnd` on, stays strictly increasing and
      ends at `segEnd`. */
  function AddSegment(b: Builder, segEnd: int, dd: int): (r: Builder)
    requires CanAdd(b, segEnd)
    ensures r.start == b.start && r.end == b.end
    ensures Increasing(b.start, b.buffer) ==> Increasing(r.start, r.buffer)
    ensures End(r.start, r.buffer) == segEnd
    ensures forall t :: RampSum(r.buffer, t) == RampSum(b.buffer, t) + Ramp(Segment(segEnd, dd), t)
    ensures DeltaSum(r.buffer) == DeltaSum(b.buffer) + dd
    ensures |r.buffer| == if |b.buffer| > 0 && End(b.start, b.buffer) == segEnd then |b.buffer| else |b.buffer| + 1
  {
    var n := |b.buffer|;
    if n > 0 && b.buffer[n - 1].endPoint == segEnd then
      var last := b.buffer[n - 1];
      var init := b.buffer[..n - 1];
      var merged := Segment(segEnd, last.data + dd);
      assert b.buffer == init + [last];
      assert forall t :: RampSum(init + [merged], t) == RampSum(b.buffer, t) + Ramp(Segment(segEnd, dd), t) by {
        forall t ensures RampSum(init + [merged], t) == RampSum(b.buffer, t) + Ramp(Segment(segEnd, dd), t) {
          RampSumAppend(init, merged, t);
          RampSumAppend(init, last, t);
          assert (last.data + dd) * (t - segEnd) == last.data * (t - segEnd) + dd * (t - segEnd);
        }
      }
      DeltaSumAppend(init, merged);
      DeltaSumAppend(init, last);
      AppendExtends(DeltaDeltaValue, b.start, init, segEnd, last.data, b.start);
      AppendExtends(DeltaDeltaValue, b.start, init, segEnd, merged.data, b.start);
      Builder(b.start, b.end, init + [merged])
    else
      var p := Segment(segEnd, dd);
      assert forall t :: RampSum(b.buffer + [p], t) == RampSum(b.buffer, t) + Ramp(p, t) by {
        forall t ensures RampSum(b.buffer + [p], t) == RampSum(b.buffer, t) + Ramp(p, t) {
          RampSumAppend(b.buffer, p, t);
        }
      }
      DeltaSumAppend(b.buffer, p);
      AppendExtends(DeltaDeltaValue, b.start, b.buffer, segEnd, dd, b.start);
      Builder(b.start, b.end, b.buffer + [p])
  }

  /** `extend_to_end`: a zero delta-delta at `end`, so the buffer then ends
      exactly at `end` and represents the same function. */
  function ExtendToEnd(b: Builder): (r: Builder)
    requires CanAdd(b, b.end)
    ensures Increasing(b.start, b.buffer) ==> Increasing(r.start, r.buffer)
    ensures r.start == b.start && End(r.start, r.buffer) == b.end
    ensures forall t :: RampSum(r.buffer, t) == RampSum(b.buffer, t)
  {
    AddSegment(b, b.end, 0)
  }

  /** The scan of `into_rating_iter` from state `(rating, delta, last)`: each
      output segment carries the current state, then the rating advances
      along the segment and the delta-delta joins the delta. */
  function ScanFrom(rating: int, delta: int, last: int, buf: seq<Segment<int>>): (r: seq<Segment<RatingInfo>>)
    ensures |r| == |buf|
    ensures forall k :: 0 <= k < |buf| ==> r[k].endPoint == buf[k].endPoint
    decreases |buf|
  {
    if |buf| == 0 then []
    else
      var e := buf[0].endPoint;
      [Segment(e, RatingInfo(rating, delta))] + ScanFrom(rating + delta * (e - last), delta + buf[0].data, e, buf[1..])
  }

  /** `into_rating_iter`: the scan from rating 0 and delta 0 at `start`. */
  function IntoRatingIter(start: int, buf: seq<Segment<int>>): (r: seq<Segment<RatingInfo>>)
    ensures |r| == |buf|
  {
    ScanFrom(0, 0, start, buf)
  }

  /** The start of segment `k` of a buffer that starts at `last`. */
  function PrevEnd(last: int, buf: seq<Segment<int>>, k: int): int
    requires 0 <= k <= |buf|
  {
    if k == 0 then last else buf[k - 1].endPoint
  }

  /** The first scanned segment holds the initial state, and the delta of
      segment `k` is the initial delta plus the first `k` delta-deltas. */
  lemma {:induction false} ScanFromDeltas(rating: int, delta: int, last: int, buf: seq<Segment<int>>)
    ensures |buf| > 0 ==> ScanFrom(rating, delta, last, buf)[0].data == RatingInfo(rating, delta)
    ensures forall k :: 0 <= k < |buf| ==> ScanFrom(rating, delta, last, buf)[k].data.delta == delta + DeltaSum(buf[..k])
    decreases |buf|
  {
    if |buf| > 0 {
      var r := ScanFrom(rating, delta, last, buf);
      var e := buf[0].endPoint;
      var tail := ScanFrom(rating + delta * (e - last), delta + buf[0].data, e, buf[1..]);
      ScanFromDeltas(rating + delta * (e - last), delta + buf[0].data, e, buf[1..]);
      ScanFromCons(rating, delta, last, buf);
      assert r[1..] == tail;
      forall k | 0 < k < |buf|
        ensures r[k].data.delta == delta + DeltaSum(buf[..k])
      {
        assert r[k] == tail[k - 1];
        DeltaSumPrefix(buf, k);
      }
      assert buf[..0] == [];
    }
  }

  lemma DeltaSumPrefix(buf: seq<Segment<int>>, k: int)
    requires 0 < k <= |buf|
    ensures DeltaSum(buf[..k]) == buf[0].data + DeltaSum(buf[1..][..k - 1])
  {
    assert buf[..k][1..] == buf[1..][..k - 1];
  }

  /** Continuity: every scanned segment after the first starts with the
      rating the previous one reaches at its exclusive end. */
  lemma {:induction false} ScanFromContinuity(rating: int, delta: int, last: int, buf: seq<Segment<int>>)
    ensures forall k :: 0 < k < |buf| ==>
      ScanFrom(rating, delta, last, buf)[k].data.rating
        == ScanFrom(rating, delta, last, buf)[k - 1].data.ExclusiveEndRating(buf[k - 1].endPoint - PrevEnd(last, buf, k - 1))
    decreases |buf|
  {
    if |buf| > 0 {
      var r := ScanFrom(rating, delta, last, buf);
      var e := buf[0].endPoint;
      var tail := ScanFrom(rating + delta * (e - last), delta + buf[0].data, e, buf[1..]);
      ScanFromContinuity(rating + delta * (e - last), delta + buf[0].data, e, buf[1..]);
      ScanFromCons(rating, delta, last, buf);
      assert r[1..] == tail;
      if |buf| > 1 {
        ScanFromDeltas(rating + delta * (e - last), delta + buf[0].data, e, buf[1..]);
        assert r[1].data.rating == r[0].data.ExclusiveEndRating(buf[0].endPoint - last);
      }
      forall k | 1 < k < |buf|
        ensures r[k].data.rating == r[k - 1].data.ExclusiveEndRating(buf[k - 1].endPoint - PrevEnd(last, buf, k - 1))
      {
        assert r[k] == tail[k - 1] && r[k - 1] == tail[k - 2];
        assert buf[k - 1] == buf[1..][k - 2];
        assert PrevEnd(last, buf, k - 1) == PrevEnd(e, buf[1..], k - 2);
      }
    }
  }

  /** The value the scan from `(rating, delta, last)` should have at `t`: the
      initial line plus every ramp of the buffer. */
  function ScanValue(rating: int, delta: int, last: int, buf: seq<Segment<int>>, t: int): int {
    rating + delta * (t - last) + RampSum(buf, t)
  }

  /** Meaning of the scan: on an increasing buffer, the scanned function at
      `t` is the state's own line plus all ramps stored up to `t`. */
  lemma {:induction false} ScanFromEval(rating: int, delta: int, last: int, buf: seq<Segment<int>>, t: int)
    requires Increasing(last, buf)
    requires last <= t < End(last, buf)
    ensures t < End(last, ScanFrom(rating, delta, last, buf))
      && Eval(RatingValue, last, ScanFrom(rating, delta, last, buf), t) == ScanValue(rating, delta, last, buf, t)
    decreases |buf|
  {
    if t < buf[0].endPoint {
      ScanFromHead(rating, delta, last, buf, t);
    } else {
      var e := buf[0].endPoint;
      DropHead(last, buf);
      ScanFromEval(rating + delta * (e - last), delta + buf[0].data, e, buf[1..], t);
      ScanFromTail(rating, delta, last, buf, t);
    }
  }

  lemma ScanFromEnd(rating: int, delta: int, last: int, buf: seq<Segment<int>>)
    ensures End(last, ScanFrom(rating, delta, last, buf)) == End(last, buf)
  {
    var r := ScanFrom(rating, delta, last, buf);
    if |buf| > 0 {
      assert r[|r| - 1].endPoint == buf[|buf| - 1].endPoint;
    }
  }

  /** Inside the first segment the scan is the initial line, and no ramp has
      started yet. */
  lemma ScanFromHead(rating: int, delta: int, last: int, buf: seq<Segment<int>>, t: int)
    requires Increasing(last, buf)
    requires |buf| > 0 && last <= t < buf[0].endPoint
    ensures t < End(last, ScanFrom(rating, delta, last, buf))
      && Eval(RatingValue, last, ScanFrom(rating, delta, last, buf), t) == ScanValue(rating, delta, last, buf, t)
  {
    ScanFromEnd(rating, delta, last, buf);
    IncreasingBounds(last, buf);
    var r := ScanFrom(rating, delta, last, buf);
    assert r[0] == Segment(buf[0].endPoint, RatingInfo(rating, delta));
    RampSumBefore(buf, t);
  }

  /** Past the first segment the scan continues from the first segment's end
      with the first delta-delta added. */
  lemma ScanFromTail(rating: int, delta: int, last: int, buf: seq<Segment<int>>, t: int)
    requires |buf| > 1 && last <= buf[0].endPoint <= t
    requires var e := buf[0].endPoint;
      t < End(e, ScanFrom(rating + delta * (e - last), delta + buf[0].data, e, buf[1..]))
      && Eval(RatingValue, e, ScanFrom(rating + delta * (e - last), delta + buf[0].data, e, buf[1..]), t)
      == ScanValue(rating + delta * (e - last), delta + buf[0].data, e, buf[1..], t)
    ensures t < End(last, ScanFrom(rating, delta, last, buf)) && Eval(RatingValue, last, ScanFrom(rating, delta, last, buf), t) == ScanValue(rating, delta, last, buf, t)
  {
    var e := buf[0].endPoint;
    var rest := ScanFrom(rating + delta * (e - last), delta + buf[0].data, e, buf[1..]);
    ScanFromCons(rating, delta, last, buf);
    EvalCons(RatingValue, last, e, RatingInfo(rating, delta), rest, t);
    ScanValueStep(rating, delta, last, buf, t);
  }

  lemma ScanFromCons(rating: int, delta: int, last: int, buf: seq<Segment<int>>)
    requires |buf| > 0
    ensures var e := buf[0].endPoint;
      ScanFrom(rating, delta, last, buf)
      == [Segment(e, RatingInfo(rating, delta))] + ScanFrom(rating + delta * (e - last), delta + buf[0].data, e, buf[1..])
  {
  }

  /** Past the first end point, the expected value from `last` is the one
      from that end point with the advanced state. */
  lemma ScanValueStep(rating: int, delta: int, last: int, buf: seq<Segment<int>>, t: int)
    requires |buf| > 0 && buf[0].endPoint <= t
    ensures var e := buf[0].endPoint;
      ScanValue(rating, delta, last, buf, t) == ScanValue(rating + delta * (e - last), delta + buf[0].data, e, buf[1..], t)
  {
    var e := buf[0].endPoint;
    assert RampSum(buf, t) == buf[0].data * (t - e) + RampSum(buf[1..], t);
    ScanStep(rating, delta, buf[0].data, last, e, t);
  }

  /** Two linear pieces joined at `e` add up to one line plus a ramp. */
  lemma ScanStep(rating: int, delta: int, dd: int, last: int, e: int, t: int)
    ensures (rating + delta * (e - last)) + (delta + dd) * (t - e) == rating + delta * (t - last) + dd * (t - e)
  {
    assert delta * (e - last) + delta * (t - e) == delta * (t - last);
    assert (delta + dd) * (t - e) == delta * (t - e) + dd * (t - e);
  }

  /** The buffer built by the builder integrates to the sum of its ramps. */
  lemma IntoRatingIterEval(b: Builder, t: int)
    requires Increasing(b.start, b.buffer)
    requires b.start <= t < End(b.start, b.buffer)
    ensures End(b.start, IntoRatingIter(b.start, b.buffer)) == End(b.start, b.buffer)
    ensures Eval(RatingValue, b.start, IntoRatingIter(b.start, b.buffer), t) == RampSum(b.buffer, t)
  {
    ScanFromEnd(0, 0, b.start, b.buffer);
    ScanFromEval(0, 0, b.start, b.buffer, t);
  }
}
