/** Piecewise functions over integer time, as ilass-core's segments.rs
    represents them: a start point plus a sequence of segments, each holding
    its exclusive end point and the data valid since the previous end point
    (`Segment<D>`), or the same with the span written out
    (`FullSegment<D>`). The lazy iterators of the source become sequences. */
module SegmentSeq {
  import opened Wrappers
  import opened SegmentData

  datatype Segment<D> = Segment(endPoint: int, data: D)

  datatype FullSegment<D> = FullSegment(span: PointSpan, data: D)

  /** The exclusive end of the covered range (`start` when there is no segment). */
  function End<D>(start: int, segs: seq<Segment<D>>): int {
    if |segs| == 0 then start else segs[|segs| - 1].endPoint
  }

  /** Every segment is non-empty: end points strictly increase from `start`. */
  predicate Increasing<D>(start: int, segs: seq<Segment<D>>)
    decreases |segs|
  {
    |segs| == 0 || (start < segs[0].endPoint && Increasing(segs[0].endPoint, segs[1..]))
  }

  /** Full segments that cover `[start, ...)` without gap or overlap, each
      span non-empty. */
  predicate Tiles<D>(start: int, fs: seq<FullSegment<D>>)
    decreases |fs|
  {
    |fs| == 0 || (fs[0].span.start == start && start < fs[0].span.end && Tiles(fs[0].span.end, fs[1..]))
  }

  /** The set of end points of a segment sequence. */
  function EndPoints<D>(segs: seq<Segment<D>>): set<int>
    decreases |segs|
  {
    if |segs| == 0 then {} else {segs[0].endPoint} + EndPoints(segs[1..])
  }

  /** `discard_start_times`: drop the start of every span. */
  function DiscardStartTimes<D>(fs: seq<FullSegment<D>>): (r: seq<Segment<D>>)
    ensures |r| == |fs|
    ensures forall i :: 0 <= i < |fs| ==> r[i] == Segment(fs[i].span.end, fs[i].data)
    decreases |fs|
  {
    if |fs| == 0 then [] else [Segment(fs[0].span.end, fs[0].data)] + DiscardStartTimes(fs[1..])
  }

  /** The exclusive end of a sequence of full segments that starts at `start`. */
  function FullEnd<D>(start: int, fs: seq<FullSegment<D>>): int {
    End(start, DiscardStartTimes(fs))
  }

  /** `annotate_with_segment_start_points`: give every segment the previous
      end point (or `start`) as its start. The source asserts that end
      points strictly increase; `None` stands for that panic. */
  function Annotate<D>(start: int, segs: seq<Segment<D>>): (r: Option<seq<FullSegment<D>>>)
    ensures r.Some? <==> Increasing(start, segs)
    ensures r.Some? ==> Tiles(start, r.value) && DiscardStartTimes(r.value) == segs
    decreases |segs|
  {
    if |segs| == 0 then Some([])
    else if start >= segs[0].endPoint then None
    else
      match Annotate(segs[0].endPoint, segs[1..])
      case None => None
      case Some(rest) =>
        var first := FullSegment(PointSpan(start, segs[0].endPoint), segs[0].data);
        assert DiscardStartTimes([first] + rest) == [Segment(segs[0].endPoint, segs[0].data)] + DiscardStartTimes(rest);
        Some([first] + rest)
  }

  /** Annotating the start-less form of a tiling gives the tiling back:
      together with `Annotate`'s contract, the two forms are in bijection. */
  lemma {:induction false} AnnotateDiscardRoundTrip<D>(start: int, fs: seq<FullSegment<D>>)
    requires Tiles(start, fs)
    ensures Annotate(start, DiscardStartTimes(fs)) == Some(fs)
    decreases |fs|
  {
    if |fs| > 0 {
      var segs := DiscardStartTimes(fs);
      assert segs[1..] == DiscardStartTimes(fs[1..]);
      AnnotateDiscardRoundTrip(fs[0].span.end, fs[1..]);
      assert [fs[0]] + fs[1..] == fs;
    }
  }

  /** A tiling has strictly increasing end points once its starts are dropped. */
  lemma {:induction false} TilesIncreasing<D>(start: int, fs: seq<FullSegment<D>>)
    requires Tiles(start, fs)
    ensures Increasing(start, DiscardStartTimes(fs))
    decreases |fs|
  {
    if |fs| > 0 {
      assert DiscardStartTimes(fs)[1..] == DiscardStartTimes(fs[1..]);
      TilesIncreasing(fs[0].span.end, fs[1..]);
    }
  }

  /** The value at time `t` of a piecewise function, given the value of one
      segment's data `x` points after that segment's start. */
  function Eval<D, V>(val: (D, int) -> V, start: int, segs: seq<Segment<D>>, t: int): V
    requires start <= t < End(start, segs)
    decreases |segs|
  {
    if t < segs[0].endPoint then val(segs[0].data, t - start)
    else Eval(val, segs[0].endPoint, segs[1..], t)
  }

  /** The start of the segment that contains `t`. */
  function StartAt<D>(start: int, segs: seq<Segment<D>>, t: int): (s: int)
    requires start <= t < End(start, segs)
    ensures s <= t
    decreases |segs|
  {
    if t < segs[0].endPoint then start else StartAt(segs[0].endPoint, segs[1..], t)
  }

  /** The data of the segment that contains `t`. */
  function DataAt<D>(start: int, segs: seq<Segment<D>>, t: int): D
    requires start <= t < End(start, segs)
    decreases |segs|
  {
    if t < segs[0].endPoint then segs[0].data else DataAt(segs[0].endPoint, segs[1..], t)
  }

  /** Evaluation looks up the containing segment and applies the value function. */
  lemma {:induction false} EvalIsLookup<D, V>(val: (D, int) -> V, start: int, segs: seq<Segment<D>>, t: int)
    requires start <= t < End(start, segs)
    ensures Eval(val, start, segs, t) == val(DataAt(start, segs, t), t - StartAt(start, segs, t))
    decreases |segs|
  {
    if t >= segs[0].endPoint {
      EvalIsLookup(val, segs[0].endPoint, segs[1..], t);
    }
  }

  /** Every end point of an increasing sequence lies in `(start, End]`, and
      the first is the end exactly when it is the only one. */
  lemma {:induction false} IncreasingBounds<D>(start: int, segs: seq<Segment<D>>)
    requires Increasing(start, segs)
    ensures forall i :: 0 <= i < |segs| ==> start < segs[i].endPoint <= End(start, segs)
    ensures forall i, j :: 0 <= i < j < |segs| ==> segs[i].endPoint < segs[j].endPoint
    ensures start <= End(start, segs)
    decreases |segs|
  {
    if |segs| > 0 {
      IncreasingBounds(segs[0].endPoint, segs[1..]);
      assert forall i :: 1 <= i < |segs| ==> segs[i] == segs[1..][i - 1];
    }
  }

  /** Tail step: past the first end point the value is the tail's value. */
  lemma EvalTail<D, V>(val: (D, int) -> V, start: int, segs: seq<Segment<D>>, t: int)
    requires |segs| > 0 && start <= segs[0].endPoint <= t < End(start, segs)
    ensures End(segs[0].endPoint, segs[1..]) == End(start, segs)
    ensures Eval(val, start, segs, t) == Eval(val, segs[0].endPoint, segs[1..], t)
  {
  }

  /** Replacing the first segment by one that starts later, at `s2`, but
      has the same values there, does not change the function on `[s2, End)`.
      This is what `advance` on the current segment of an iterator relies on. */
  lemma AdvanceHead<D, V>(val: (D, int) -> V, s: int, segs: seq<Segment<D>>, s2: int, d: D, t: int)
    requires |segs| > 0 && s <= s2 < segs[0].endPoint
    requires forall x :: val(d, x) == val(segs[0].data, (s2 - s) + x)
    requires s2 <= t < End(s, segs)
    ensures End(s2, [Segment(segs[0].endPoint, d)] + segs[1..]) == End(s, segs)
    ensures Eval(val, s2, [Segment(segs[0].endPoint, d)] + segs[1..], t) == Eval(val, s, segs, t)
  {
    var segs2 := [Segment(segs[0].endPoint, d)] + segs[1..];
    assert segs2[1..] == segs[1..];
    if t < segs[0].endPoint {
      assert val(d, t - s2) == val(segs[0].data, (s2 - s) + (t - s2));
    }
  }

  /** Replacing the first segment's data and moving its start to `s2`
      keeps the sequence increasing and its end. */
  lemma ReplaceHead<D>(s: int, segs: seq<Segment<D>>, s2: int, d: D)
    requires |segs| > 0 && s2 < segs[0].endPoint && Increasing(s, segs)
    ensures Increasing(s2, [Segment(segs[0].endPoint, d)] + segs[1..])
    ensures End(s2, [Segment(segs[0].endPoint, d)] + segs[1..]) == End(s, segs)
  {
    var r := [Segment(segs[0].endPoint, d)] + segs[1..];
    assert r[1..] == segs[1..];
  }

  /** The end points of a non-empty sequence: the first one and the rest's. */
  lemma EndPointsCons<D>(segs: seq<Segment<D>>)
    requires |segs| > 0
    ensures EndPoints(segs) == {segs[0].endPoint} + EndPoints(segs[1..])
    ensures |segs| == 1 ==> EndPoints(segs) == {segs[0].endPoint}
  {
  }

  /** Evaluation of a sequence with a given first segment `[s, e)`. */
  lemma EvalCons<D, V>(val: (D, int) -> V, s: int, e: int, d: D, rest: seq<Segment<D>>, t: int)
    requires s <= t < End(e, rest)
    ensures End(s, [Segment(e, d)] + rest) == End(e, rest)
    ensures t < e ==> Eval(val, s, [Segment(e, d)] + rest, t) == val(d, t - s)
    ensures e <= t ==> Eval(val, s, [Segment(e, d)] + rest, t) == Eval(val, e, rest, t)
  {
    assert ([Segment(e, d)] + rest)[1..] == rest;
  }

  /** The first end point of an increasing sequence lies in `(start, End]`. */
  lemma FirstBound<D>(s: int, segs: seq<Segment<D>>)
    requires |segs| > 0 && Increasing(s, segs)
    ensures s < segs[0].endPoint <= End(s, segs)
  {
    IncreasingBounds(s, segs);
  }

  /** Dropping the first segment of an increasing sequence with more than
      one segment keeps its end. */
  lemma DropHead<D>(s: int, segs: seq<Segment<D>>)
    requires |segs| > 1 && Increasing(s, segs)
    ensures Increasing(segs[0].endPoint, segs[1..])
    ensures End(segs[0].endPoint, segs[1..]) == End(s, segs) > segs[0].endPoint
  {
    IncreasingBounds(s, segs);
  }

  /** Full segments read as a piecewise function: evaluation of a tiling is
      the value of the full segment whose span holds `t`. */
  lemma {:induction false} EvalTiling<D, V>(val: (D, int) -> V, start: int, fs: seq<FullSegment<D>>, t: int, k: int)
    requires Tiles(start, fs)
    requires 0 <= k < |fs| && fs[k].span.start <= t < fs[k].span.end
    ensures start <= t < FullEnd(start, fs)
    ensures Eval(val, start, DiscardStartTimes(fs), t) == val(fs[k].data, t - fs[k].span.start)
    decreases |fs|
  {
    TilesIncreasing(start, fs);
    IncreasingBounds(start, DiscardStartTimes(fs));
    TilesStarts(start, fs);
    if k > 0 {
      assert DiscardStartTimes(fs)[1..] == DiscardStartTimes(fs[1..]);
      assert fs[1..][k - 1] == fs[k];
      EvalTiling(val, fs[0].span.end, fs[1..], t, k - 1);
    }
  }

  /** The spans of a tiling start at `start` or at the previous span's end. */
  lemma {:induction false} TilesStarts<D>(start: int, fs: seq<FullSegment<D>>)
    requires Tiles(start, fs)
    ensures forall k :: 0 <= k < |fs| ==> fs[k].span.start < fs[k].span.end
    ensures |fs| > 0 ==> fs[0].span.start == start
    ensures forall k :: 0 < k < |fs| ==> fs[k].span.start == fs[k - 1].span.end
    decreases |fs|
  {
    if |fs| > 0 {
      TilesStarts(fs[0].span.end, fs[1..]);
      assert forall k :: 0 < k < |fs| ==> fs[k] == fs[1..][k - 1];
    }
  }

  /** A tiling followed by a tiling of the rest is a tiling. */
  lemma {:induction false} TilesAppend<D>(start: int, a: seq<FullSegment<D>>, b: seq<FullSegment<D>>)
    requires Tiles(start, a) && Tiles(FullEnd(start, a), b)
    ensures Tiles(start, a + b)
    ensures FullEnd(start, a + b) == FullEnd(FullEnd(start, a), b)
    decreases |a|
  {
    if |a| > 0 {
      assert (a + b)[1..] == a[1..] + b;
      assert DiscardStartTimes(a)[1..] == DiscardStartTimes(a[1..]);
      assert FullEnd(a[0].span.end, a[1..]) == FullEnd(start, a);
      assert (a + b)[0] == a[0];
      TilesAppend(a[0].span.end, a[1..], b);
      if |b| > 0 {
        assert (a + b)[|a + b| - 1] == b[|b| - 1];
      } else {
        assert a + b == a;
      }
    } else {
      assert a + b == b;
    }
  }

  /** A full segment `[s, e)` in front of a tiling of `[e, ...)`. */
  lemma ConsTiles<D>(s: int, e: int, d: D, rest: seq<FullSegment<D>>)
    requires s < e && Tiles(e, rest)
    ensures Tiles(s, [FullSegment(PointSpan(s, e), d)] + rest)
    ensures DiscardStartTimes([FullSegment(PointSpan(s, e), d)] + rest) == [Segment(e, d)] + DiscardStartTimes(rest)
    ensures FullEnd(s, [FullSegment(PointSpan(s, e), d)] + rest) == FullEnd(e, rest)
  {
    var fs := [FullSegment(PointSpan(s, e), d)] + rest;
    assert fs[1..] == rest;
    assert DiscardStartTimes(fs)[1..] == DiscardStartTimes(rest);
  }

  /** Putting one full segment `[s, e)` in front of a tiling of `[e, ...)`:
      the result tiles from `s`, and its function is the segment's value
      before `e` and the rest's from `e` on. */
  lemma ConsFull<D, V>(val: (D, int) -> V, s: int, e: int, d: D, rest: seq<FullSegment<D>>, t: int)
    requires s < e && Tiles(e, rest)
    ensures Tiles(s, [FullSegment(PointSpan(s, e), d)] + rest)
    ensures DiscardStartTimes([FullSegment(PointSpan(s, e), d)] + rest) == [Segment(e, d)] + DiscardStartTimes(rest)
    ensures FullEnd(s, [FullSegment(PointSpan(s, e), d)] + rest) == FullEnd(e, rest) >= e
    ensures s <= t < e ==> Eval(val, s, DiscardStartTimes([FullSegment(PointSpan(s, e), d)] + rest), t) == val(d, t - s)
    ensures e <= t < FullEnd(e, rest) ==>
      Eval(val, s, DiscardStartTimes([FullSegment(PointSpan(s, e), d)] + rest), t) == Eval(val, e, DiscardStartTimes(rest), t)
  {
    var fs := [FullSegment(PointSpan(s, e), d)] + rest;
    assert fs[1..] == rest;
    var ds := DiscardStartTimes(fs);
    assert ds[1..] == DiscardStartTimes(rest);
    assert ds == [Segment(e, d)] + DiscardStartTimes(rest);
    TilesIncreasing(e, rest);
    IncreasingBounds(e, DiscardStartTimes(rest));
  }

  /** The end points of one full segment `[s, e)` in front of `rest`. */
  lemma ConsFullEndPoints<D>(s: int, e: int, d: D, rest: seq<FullSegment<D>>)
    ensures EndPoints(DiscardStartTimes([FullSegment(PointSpan(s, e), d)] + rest)) == {e} + EndPoints(DiscardStartTimes(rest))
  {
    var fs := [FullSegment(PointSpan(s, e), d)] + rest;
    assert fs[1..] == rest;
    var ds := DiscardStartTimes(fs);
    assert ds[1..] == DiscardStartTimes(rest);
  }

  /** Dropping starts commutes with concatenation. */
  lemma {:induction false} DiscardConcat<D>(a: seq<FullSegment<D>>, b: seq<FullSegment<D>>)
    ensures DiscardStartTimes(a + b) == DiscardStartTimes(a) + DiscardStartTimes(b)
  {
    assert |DiscardStartTimes(a + b)| == |DiscardStartTimes(a) + DiscardStartTimes(b)|;
    forall i | 0 <= i < |a + b|
      ensures DiscardStartTimes(a + b)[i] == (DiscardStartTimes(a) + DiscardStartTimes(b))[i]
    {
      if i < |a| {
        assert (a + b)[i] == a[i];
      } else {
        assert (a + b)[i] == b[i - |a|];
      }
    }
  }

  /** Evaluating a concatenation: the first part decides before its end,
      the second part after it. */
  lemma {:induction false} EvalConcat<D, V>(val: (D, int) -> V, start: int, x: seq<Segment<D>>, y: seq<Segment<D>>, t: int)
    requires Increasing(start, x)
    requires start <= t < End(End(start, x), y)
    requires |y| > 0 ==> End(start, x) <= End(End(start, x), y)
    ensures End(start, x + y) == End(End(start, x), y)
    ensures t < End(start, x) ==> Eval(val, start, x + y, t) == Eval(val, start, x, t)
    ensures t >= End(start, x) ==> Eval(val, start, x + y, t) == Eval(val, End(start, x), y, t)
    decreases |x|
  {
    if |x| == 0 {
      assert x + y == y;
    } else {
      assert (x + y)[1..] == x[1..] + y;
      assert (x + y)[0] == x[0];
      IncreasingBounds(start, x);
      if |y| > 0 {
        assert (x + y)[|x + y| - 1] == y[|y| - 1];
      } else {
        assert x + y == x;
      }
      if t >= x[0].endPoint {
        EvalConcat(val, x[0].endPoint, x[1..], y, t);
      }
    }
  }

  /** Evaluating the concatenation of a tiling and a tiling of the rest. */
  lemma EvalAppendTiling<D, V>(val: (D, int) -> V, start: int, a: seq<FullSegment<D>>, b: seq<FullSegment<D>>, t: int)
    requires Tiles(start, a) && Tiles(FullEnd(start, a), b)
    requires start <= t < FullEnd(FullEnd(start, a), b)
    ensures Tiles(start, a + b) && FullEnd(start, a + b) == FullEnd(FullEnd(start, a), b)
    ensures t < FullEnd(start, a) ==> Eval(val, start, DiscardStartTimes(a + b), t) == Eval(val, start, DiscardStartTimes(a), t)
    ensures t >= FullEnd(start, a) ==> Eval(val, start, DiscardStartTimes(a + b), t) == Eval(val, FullEnd(start, a), DiscardStartTimes(b), t)
  {
    TilesAppend(start, a, b);
    DiscardConcat(a, b);
    TilesIncreasing(start, a);
    TilesIncreasing(FullEnd(start, a), b);
    IncreasingBounds(FullEnd(start, a), DiscardStartTimes(b));
    EvalConcat(val, start, DiscardStartTimes(a), DiscardStartTimes(b), t);
  }

  /** `shift`: move the whole function `dt` points later. */
  function Shift<D>(segs: seq<Segment<D>>, dt: int): (r: seq<Segment<D>>)
    ensures |r| == |segs|
    ensures forall i :: 0 <= i < |segs| ==> r[i] == Segment(segs[i].endPoint + dt, segs[i].data)
    decreases |segs|
  {
    if |segs| == 0 then [] else [Segment(segs[0].endPoint + dt, segs[0].data)] + Shift(segs[1..], dt)
  }

  /** Shifting start and end points by `dt` translates the function:
      its value at `t + dt` is the old value at `t`. */
  lemma {:induction false} ShiftTranslates<D, V>(val: (D, int) -> V, start: int, segs: seq<Segment<D>>, dt: int, t: int)
    requires start <= t < End(start, segs)
    ensures End(start + dt, Shift(segs, dt)) == End(start, segs) + dt
    ensures Eval(val, start + dt, Shift(segs, dt), t + dt) == Eval(val, start, segs, t)
    decreases |segs|
  {
    var r := Shift(segs, dt);
    assert r[1..] == Shift(segs[1..], dt);
    if t >= segs[0].endPoint {
      ShiftTranslates(val, segs[0].endPoint, segs[1..], dt, t);
    }
  }

  /** Shifting keeps the end points strictly increasing, and only then. */
  lemma {:induction false} ShiftIncreasing<D>(start: int, segs: seq<Segment<D>>, dt: int)
    ensures Increasing(start + dt, Shift(segs, dt)) <==> Increasing(start, segs)
    decreases |segs|
  {
    if |segs| > 0 {
      assert Shift(segs, dt)[1..] == Shift(segs[1..], dt);
      ShiftIncreasing(segs[0].endPoint, segs[1..], dt);
    }
  }

  /** `append`: one more segment after the last one. */
  function Append<D>(segs: seq<Segment<D>>, endPoint: int, data: D): (r: seq<Segment<D>>)
    ensures |r| == |segs| + 1 && r[..|segs|] == segs
    ensures r[|segs|] == Segment(endPoint, data)
  {
    segs + [Segment(endPoint, data)]
  }

  /** An appended segment keeps the sequence increasing exactly when it ends
      after the old end; the old part of the function is unchanged and the
      new part takes its values from `data`, starting at the old end. */
  lemma {:induction false} AppendExtends<D, V>(val: (D, int) -> V, start: int, segs: seq<Segment<D>>, endPoint: int, data: D, t: int)
    ensures Increasing(start, Append(segs, endPoint, data)) <==> Increasing(start, segs) && End(start, segs) < endPoint
    ensures End(start, Append(segs, endPoint, data)) == endPoint
    ensures start <= t < End(start, segs) <= endPoint ==> Eval(val, start, Append(segs, endPoint, data), t) == Eval(val, start, segs, t)
    ensures Increasing(start, segs) && start <= End(start, segs) <= t < endPoint ==>
      Eval(val, start, Append(segs, endPoint, data), t) == val(data, t - End(start, segs))
    decreases |segs|
  {
    var r := Append(segs, endPoint, data);
    if |segs| > 0 {
      assert r[1..] == Append(segs[1..], endPoint, data);
      AppendExtends(val, segs[0].endPoint, segs[1..], endPoint, data, t);
      if Increasing(start, segs) && End(start, segs) <= t < endPoint {
        IncreasingBounds(start, segs);
      }
    }
  }
}
