/** `LeftToRightMaximumIterator` of segments.rs: the running maximum of a
    dual function read from left to right. The iterator keeps the best
    rating seen so far (initially 0) and the offset where it was seen
    (initially the start point); every output segment is either a constant
    segment carrying that best pair, or the input segment itself while the
    input keeps rising above it. */
module LeftToRight {
  import opened Arith
  import opened SegmentData
  import opened SegmentSeq
  import opened CombinedMaximum

  /** `current_best_rating` and `current_best_timepoint`. */
  datatype Best = Best(rating: int, offset: int)

  /** `constant_dual_info`: the best pair as a constant dual segment. */
  function ConstantDual(b: Best): DualInfo {
    DualInfo(ConstantOffset(b.offset), ConstantRating(b.rating))
  }

  /** One `next()` (with the stored second piece, if any, emitted right
      after the first): the output pieces for the input segment `seg` and
      the updated best pair. */
  function Step(b: Best, seg: FullSegment<DualInfo>): (r: (seq<FullSegment<DualInfo>>, Best))
    requires seg.span.start < seg.span.end
    ensures Tiles(seg.span.start, r.0) && FullEnd(seg.span.start, r.0) == seg.span.end
  {
    var s := seg.span.start;
    var e := seg.span.end;
    var len := e - s;
    var startRating := seg.data.ratingInfo.StartRating();
    var endRating := seg.data.ratingInfo.EndRating(len);
    var startOffset := seg.data.offsetInfo.offset;
    var endOffset := seg.data.offsetInfo.EndOffset(len);
    if startRating <= b.rating && endRating <= b.rating then
      ConsFull(DualRating, s, e, ConstantDual(b), [], s);
      ([FullSegment(seg.span, ConstantDual(b))], b)
    else if startRating >= b.rating then
      if startRating >= endRating then
        var b' := Best(startRating, startOffset);
        ConsFull(DualRating, s, e, ConstantDual(b'), [], s);
        ([FullSegment(seg.span, ConstantDual(b'))], b')
      else
        ConsFull(DualRating, s, e, seg.data, [], s);
        ([seg], Best(endRating, endOffset))
    else
      CrossingBounds(ConstantRating(b.rating), seg.data.ratingInfo, len);
      var switch := FloorDiv(b.rating - startRating, seg.data.ratingInfo.delta) + 1;
      assert switch == SwitchPoint(b.rating, startRating, 0, seg.data.ratingInfo.delta);
      (TwoPieces(s, s + switch, e, ConstantDual(b), seg.data.Advanced(switch), []), Best(endRating, endOffset))
  }

  /** `LeftToRightMaximumIterator` from best pair `b` on a tiling `fs` of
      `[s, ...)`. */
  function LeftToRightFrom(b: Best, s: int, fs: seq<FullSegment<DualInfo>>): (r: seq<FullSegment<DualInfo>>)
    requires Tiles(s, fs)
    ensures Tiles(s, r) && FullEnd(s, r) == FullEnd(s, fs)
    decreases |fs|
  {
    if |fs| == 0 then []
    else
      var (pieces, b') := Step(b, fs[0]);
      var rest := LeftToRightFrom(b', fs[0].span.end, fs[1..]);
      TilesAppend(s, pieces, rest);
      assert DiscardStartTimes(fs)[1..] == DiscardStartTimes(fs[1..]);
      TilesIncreasing(fs[0].span.end, fs[1..]);
      IncreasingBounds(fs[0].span.end, DiscardStartTimes(fs[1..]));
      pieces + rest
  }

  /** `DualFullSegmentIterator::left_to_right_maximum`: the iterator starts
      with best rating 0 at the start point. */
  function LeftToRightMaximum(start: int, fs: seq<FullSegment<DualInfo>>): (r: seq<FullSegment<DualInfo>>)
    requires Tiles(start, fs)
    ensures Tiles(start, r) && FullEnd(start, r) == FullEnd(start, fs)
  {
    LeftToRightFrom(Best(0, start), start, fs)
  }

  /** The best pair after a segment: the best rating becomes the largest of
      the old best and the segment's ratings (so it never decreases and
      bounds the whole segment), and a changed pair is one the segment
      attains. */
  lemma StepBest(b: Best, seg: FullSegment<DualInfo>)
    requires seg.span.start < seg.span.end
    ensures var len := seg.span.end - seg.span.start;
      Step(b, seg).1.rating
      == Max(b.rating, Max(seg.data.ratingInfo.StartRating(), seg.data.ratingInfo.EndRating(len)))
    ensures forall x :: 0 <= x < seg.span.end - seg.span.start ==> DualRating(seg.data, x) <= Step(b, seg).1.rating
    ensures Step(b, seg).1 == b
         || exists x :: 0 <= x < seg.span.end - seg.span.start
              && DualRating(seg.data, x) == Step(b, seg).1.rating && DualOffset(seg.data, x) == Step(b, seg).1.offset
  {
    var len := seg.span.end - seg.span.start;
    var d := seg.data;
    forall x | 0 <= x < len ensures DualRating(d, x) <= Max(d.ratingInfo.GetAt(0), d.ratingInfo.GetAt(len - 1)) {
      LinearBetweenEnds(d.ratingInfo, x, len - 1);
    }
    assert DualRating(d, 0) == d.ratingInfo.StartRating() && DualOffset(d, 0) == d.offsetInfo.offset;
    assert DualRating(d, len - 1) == d.ratingInfo.EndRating(len);
    assert DualOffset(d, len - 1) == d.offsetInfo.EndOffset(len);
  }

  /** `(rating, offset)` is the running maximum, at offset `x` of a segment
      with data `d`, of the best pair `b` and the segment so far: the rating
      is at least `b`'s and every segment rating up to `x`, and the pair is
      `b` itself or one the segment attains up to `x`. */
  predicate RunningMax(rating: int, offset: int, b: Best, d: DualInfo, x: int) {
    rating >= b.rating
    && (forall x' :: 0 <= x' <= x ==> DualRating(d, x') <= rating)
    && ((rating == b.rating && offset == b.offset)
        || exists x' :: 0 <= x' <= x && DualRating(d, x') == rating && DualOffset(d, x') == offset)
  }

  /** A single constant segment `[s, e)` carrying the pair `c`. */
  lemma ConstantPieceValues(s: int, e: int, c: Best, t: int)
    requires s <= t < e
    ensures Eval(DualRating, s, DiscardStartTimes([FullSegment(PointSpan(s, e), ConstantDual(c))]), t) == c.rating
    ensures Eval(DualOffset, s, DiscardStartTimes([FullSegment(PointSpan(s, e), ConstantDual(c))]), t) == c.offset
  {
    ConsFull(DualRating, s, e, ConstantDual(c), [], t);
    ConsFull(DualOffset, s, e, ConstantDual(c), [], t);
  }

  /** While the segment stays at or below the best rating, the best pair
      is the running maximum. */
  lemma RunningKeep(b: Best, d: DualInfo, n: int, x: int)
    requires 0 <= x <= n
    requires d.ratingInfo.GetAt(0) <= b.rating && d.ratingInfo.GetAt(n) <= b.rating
    ensures RunningMax(b.rating, b.offset, b, d, x)
  {
    forall x' | 0 <= x' <= x ensures DualRating(d, x') <= b.rating {
      LinearBetweenEnds(d.ratingInfo, x', n);
    }
  }

  /** A segment that starts at or above the best and does not rise: its
      start is the running maximum. */
  lemma RunningStart(b: Best, d: DualInfo, n: int, x: int)
    requires 0 <= x <= n
    requires d.ratingInfo.GetAt(0) >= b.rating && d.ratingInfo.GetAt(0) >= d.ratingInfo.GetAt(n)
    ensures RunningMax(d.ratingInfo.GetAt(0), d.offsetInfo.offset, b, d, x)
  {
    forall x' | 0 <= x' <= x ensures DualRating(d, x') <= d.ratingInfo.GetAt(0) {
      LinearBetweenEnds(d.ratingInfo, x', n);
    }
    assert DualRating(d, 0) == d.ratingInfo.GetAt(0) && DualOffset(d, 0) == d.offsetInfo.offset;
  }

  /** On a rising segment that has reached the best rating at `x`, the
      segment's own pair at `x` is the running maximum. */
  lemma RunningRising(b: Best, d: DualInfo, x: int)
    requires 0 <= x && d.ratingInfo.delta >= 0 && d.ratingInfo.GetAt(x) >= b.rating
    ensures RunningMax(DualRating(d, x), DualOffset(d, x), b, d, x)
  {
    forall x' | 0 <= x' <= x ensures DualRating(d, x') <= DualRating(d, x) {
      RisingMonotone(d.ratingInfo, x', x);
    }
  }

  /** Before the switch point of a crossing segment the best pair is the
      running maximum. */
  lemma RunningBeforeSwitch(b: Best, d: DualInfo, len: int, x: int)
    requires len >= 1
    requires d.ratingInfo.GetAt(0) < b.rating && d.ratingInfo.GetAt(len - 1) > b.rating
    requires 0 <= x < SwitchPoint(b.rating, d.ratingInfo.rating, 0, d.ratingInfo.delta)
    ensures RunningMax(b.rating, b.offset, b, d, x)
  {
    CrossingBounds(ConstantRating(b.rating), d.ratingInfo, len);
    forall x' | 0 <= x' <= x ensures DualRating(d, x') <= b.rating {
      CrossingValues(ConstantRating(b.rating), d.ratingInfo, len, x');
    }
  }

  /** From the switch point of a crossing segment on, the segment's own pair
      is the running maximum. */
  lemma RunningAfterSwitch(b: Best, d: DualInfo, len: int, x: int)
    requires len >= 1
    requires d.ratingInfo.GetAt(0) < b.rating && d.ratingInfo.GetAt(len - 1) > b.rating
    requires SwitchPoint(b.rating, d.ratingInfo.rating, 0, d.ratingInfo.delta) <= x < len
    ensures RunningMax(DualRating(d, x), DualOffset(d, x), b, d, x)
  {
    CrossingBounds(ConstantRating(b.rating), d.ratingInfo, len);
    CrossingValues(ConstantRating(b.rating), d.ratingInfo, len, x);
    RisingMonotone(d.ratingInfo, 0, len - 1);
    RunningRising(b, d, x);
  }

  /** A segment at or below the best keeps the best pair. */
  lemma StepBelowValues(b: Best, seg: FullSegment<DualInfo>, t: int)
    requires seg.span.start <= t < seg.span.end
    requires seg.data.ratingInfo.StartRating() <= b.rating && seg.data.ratingInfo.EndRating(seg.span.end - seg.span.start) <= b.rating
    ensures RunningMax(Eval(DualRating, seg.span.start, DiscardStartTimes(Step(b, seg).0), t),
                       Eval(DualOffset, seg.span.start, DiscardStartTimes(Step(b, seg).0), t),
                       b, seg.data, t - seg.span.start)
  {
    var s := seg.span.start;
    var e := seg.span.end;
    var len := e - s;
    var d := seg.data;
    var x := t - s;
    assert Step(b, seg).0 == [FullSegment(PointSpan(s, e), ConstantDual(b))];
    ConstantPieceValues(s, e, b, t);
    RunningKeep(b, d, len - 1, x);
  }

  /** A segment that starts above the best and does not rise carries its start pair. */
  lemma StepFallingValues(b: Best, seg: FullSegment<DualInfo>, t: int)
    requires seg.span.start <= t < seg.span.end
    requires !(seg.data.ratingInfo.StartRating() <= b.rating && seg.data.ratingInfo.EndRating(seg.span.end - seg.span.start) <= b.rating)
    requires seg.data.ratingInfo.StartRating() >= b.rating && seg.data.ratingInfo.StartRating() >= seg.data.ratingInfo.EndRating(seg.span.end - seg.span.start)
    ensures RunningMax(Eval(DualRating, seg.span.start, DiscardStartTimes(Step(b, seg).0), t),
                       Eval(DualOffset, seg.span.start, DiscardStartTimes(Step(b, seg).0), t),
                       b, seg.data, t - seg.span.start)
  {
    var s := seg.span.start;
    var e := seg.span.end;
    var len := e - s;
    var d := seg.data;
    var x := t - s;
    var b' := Best(d.ratingInfo.StartRating(), d.offsetInfo.offset);
    assert Step(b, seg).0 == [FullSegment(PointSpan(s, e), ConstantDual(b'))];
    ConstantPieceValues(s, e, b', t);
    RunningStart(b, d, len - 1, x);
  }

  /** A segment that starts at or above the best and rises is emitted
      unchanged. */
  lemma StepRisingPieces(b: Best, seg: FullSegment<DualInfo>)
    requires seg.span.start < seg.span.end
    requires seg.data.ratingInfo.StartRating() >= b.rating && seg.data.ratingInfo.StartRating() < seg.data.ratingInfo.EndRating(seg.span.end - seg.span.start)
    ensures seg.data.ratingInfo.delta > 0
    ensures Step(b, seg).0 == [FullSegment(PointSpan(seg.span.start, seg.span.end), seg.data)]
  {
    RisingEnds(seg.data.ratingInfo, seg.span.end - seg.span.start - 1);
  }

  /** A rising segment that starts at or above the best is passed through. */
  lemma StepRisingValues(b: Best, seg: FullSegment<DualInfo>, t: int)
    requires seg.span.start <= t < seg.span.end
    requires seg.data.ratingInfo.StartRating() >= b.rating && seg.data.ratingInfo.StartRating() < seg.data.ratingInfo.EndRating(seg.span.end - seg.span.start)
    ensures RunningMax(Eval(DualRating, seg.span.start, DiscardStartTimes(Step(b, seg).0), t),
                       Eval(DualOffset, seg.span.start, DiscardStartTimes(Step(b, seg).0), t),
                       b, seg.data, t - seg.span.start)
  {
    var s := seg.span.start;
    var e := seg.span.end;
    var len := e - s;
    var d := seg.data;
    var x := t - s;
    StepRisingPieces(b, seg);
    ConsFull(DualRating, s, e, d, [], t);
    ConsFull(DualOffset, s, e, d, [], t);
    RisingMonotone(d.ratingInfo, 0, x);
    RunningRising(b, d, x);
  }

  /** A segment that crosses the best from below is cut at the switch
      point: the best pair first, then the rest of the segment. */
  lemma StepCrossingPieces(b: Best, seg: FullSegment<DualInfo>)
    requires seg.span.start < seg.span.end
    requires seg.data.ratingInfo.StartRating() < b.rating && seg.data.ratingInfo.EndRating(seg.span.end - seg.span.start) > b.rating
    ensures var sw := SwitchPoint(b.rating, seg.data.ratingInfo.rating, 0, seg.data.ratingInfo.delta);
      0 < sw < seg.span.end - seg.span.start
      && Step(b, seg).0
         == TwoPieces(seg.span.start, seg.span.start + sw, seg.span.end, ConstantDual(b), seg.data.Advanced(sw), [])
  {
    CrossingBounds(ConstantRating(b.rating), seg.data.ratingInfo, seg.span.end - seg.span.start);
  }

  /** The two pieces of a crossing segment `[s, e)` with data `d` hold the
      running maximum. */
  lemma CrossingRunning(b: Best, s: int, e: int, d: DualInfo, t: int)
    requires s <= t < e
    requires d.ratingInfo.GetAt(0) < b.rating && d.ratingInfo.GetAt(e - s - 1) > b.rating
    requires 0 < SwitchPoint(b.rating, d.ratingInfo.rating, 0, d.ratingInfo.delta) < e - s
    ensures var sw := SwitchPoint(b.rating, d.ratingInfo.rating, 0, d.ratingInfo.delta);
      var out := DiscardStartTimes(TwoPieces(s, s + sw, e, ConstantDual(b), d.Advanced(sw), []));
      RunningMax(Eval(DualRating, s, out, t), Eval(DualOffset, s, out, t), b, d, t - s)
  {
    var sw := SwitchPoint(b.rating, d.ratingInfo.rating, 0, d.ratingInfo.delta);
    TwoPiecesValues(DualRating, s, s + sw, e, ConstantDual(b), d.Advanced(sw), [], t);
    TwoPiecesValues(DualOffset, s, s + sw, e, ConstantDual(b), d.Advanced(sw), [], t);
    if t - s < sw {
      RunningBeforeSwitch(b, d, e - s, t - s);
    } else {
      DualAdvancedParts(d, sw, t - s - sw);
      RunningAfterSwitch(b, d, e - s, t - s);
    }
  }

  /** A segment that crosses the best from below: the best pair, then the segment. */
  lemma StepCrossingValues(b: Best, seg: FullSegment<DualInfo>, t: int)
    requires seg.span.start <= t < seg.span.end
    requires seg.data.ratingInfo.StartRating() < b.rating && seg.data.ratingInfo.EndRating(seg.span.end - seg.span.start) > b.rating
    ensures RunningMax(Eval(DualRating, seg.span.start, DiscardStartTimes(Step(b, seg).0), t),
                       Eval(DualOffset, seg.span.start, DiscardStartTimes(Step(b, seg).0), t),
                       b, seg.data, t - seg.span.start)
  {
    StepCrossingPieces(b, seg);
    CrossingRunning(b, seg.span.start, seg.span.end, seg.data, t);
  }

  /** Inside the segment, the output at offset `t - start` is the running
      maximum of the old best pair and the segment so far. */
  lemma StepValues(b: Best, seg: FullSegment<DualInfo>, t: int)
    requires seg.span.start <= t < seg.span.end
    ensures RunningMax(Eval(DualRating, seg.span.start, DiscardStartTimes(Step(b, seg).0), t),
                       Eval(DualOffset, seg.span.start, DiscardStartTimes(Step(b, seg).0), t),
                       b, seg.data, t - seg.span.start)
  {
    if seg.data.ratingInfo.StartRating() <= b.rating && seg.data.ratingInfo.EndRating(seg.span.end - seg.span.start) <= b.rating {
      StepBelowValues(b, seg, t);
    } else if seg.data.ratingInfo.StartRating() >= b.rating && seg.data.ratingInfo.StartRating() >= seg.data.ratingInfo.EndRating(seg.span.end - seg.span.start) {
      StepFallingValues(b, seg, t);
    } else if seg.data.ratingInfo.StartRating() >= b.rating {
      StepRisingValues(b, seg, t);
    } else {
      StepCrossingValues(b, seg, t);
    }
  }
  /** `(rating, offset)` is the running maximum at `t` of the best pair `b`
      and the dual function `fs` read from `s`: the rating is at least
      `b`'s and every rating of `fs` in `[s, t]`, and the pair is `b` itself
      or the pair of `fs` at some point of `[s, t]`. */
  predicate PrefixMax(rating: int, offset: int, b: Best, s: int, fs: seq<FullSegment<DualInfo>>, t: int)
    requires t < FullEnd(s, fs)
  {
    rating >= b.rating
    && (forall t' :: s <= t' <= t ==> Eval(DualRating, s, DiscardStartTimes(fs), t') <= rating)
    && ((rating == b.rating && offset == b.offset)
        || exists t' :: s <= t' <= t
             && Eval(DualRating, s, DiscardStartTimes(fs), t') == rating
             && Eval(DualOffset, s, DiscardStartTimes(fs), t') == offset)
  }

  /** The output of the iterator splits into the pieces of its first step
      and the output on the rest of the input. */
  lemma FromSplit<V>(val: (DualInfo, int) -> V, b: Best, s: int, fs: seq<FullSegment<DualInfo>>, t: int)
    requires Tiles(s, fs) && |fs| > 0
    requires s <= t < FullEnd(s, fs)
    ensures fs[0].span.end <= FullEnd(s, fs)
    ensures t < fs[0].span.end ==>
      Eval(val, s, DiscardStartTimes(LeftToRightFrom(b, s, fs)), t)
      == Eval(val, s, DiscardStartTimes(Step(b, fs[0]).0), t)
    ensures fs[0].span.end <= t ==>
      Eval(val, s, DiscardStartTimes(LeftToRightFrom(b, s, fs)), t)
      == Eval(val, fs[0].span.end, DiscardStartTimes(LeftToRightFrom(Step(b, fs[0]).1, fs[0].span.end, fs[1..])), t)
  {
    var e := fs[0].span.end;
    var (pieces, b') := Step(b, fs[0]);
    var tail := LeftToRightFrom(b', e, fs[1..]);
    FromUnfold(b, s, fs);
    assert fs == [FullSegment(PointSpan(s, e), fs[0].data)] + fs[1..];
    ConsFull(val, s, e, fs[0].data, fs[1..], t);
    EvalAppendTiling(val, s, pieces, tail, t);
  }

  /** One step of the iterator: the pieces of the first segment followed by
      the output on the rest of the input. */
  lemma FromUnfold(b: Best, s: int, fs: seq<FullSegment<DualInfo>>)
    requires Tiles(s, fs) && |fs| > 0
    ensures Tiles(fs[0].span.end, fs[1..])
    ensures LeftToRightFrom(b, s, fs)
         == Step(b, fs[0]).0 + LeftToRightFrom(Step(b, fs[0]).1, fs[0].span.end, fs[1..])
  {
  }

  /** A running maximum inside the first segment is one over the input. */
  lemma HeadPrefixMax(rating: int, offset: int, b: Best, s: int, fs: seq<FullSegment<DualInfo>>, t: int)
    requires Tiles(s, fs) && |fs| > 0
    requires s <= t < fs[0].span.end
    requires RunningMax(rating, offset, b, fs[0].data, t - s)
    ensures fs[0].span.end <= FullEnd(s, fs)
    ensures PrefixMax(rating, offset, b, s, fs, t)
  {
    var e := fs[0].span.end;
    var d := fs[0].data;
    var rest := fs[1..];
    assert fs == [FullSegment(PointSpan(s, e), d)] + rest;
    ConsFull(DualRating, s, e, d, rest, t);
    forall t' | s <= t' <= t ensures Eval(DualRating, s, DiscardStartTimes(fs), t') <= rating {
      ConsFull(DualRating, s, e, d, rest, t');
    }
    if !(rating == b.rating && offset == b.offset) {
      var x' :| 0 <= x' <= t - s && DualRating(d, x') == rating && DualOffset(d, x') == offset;
      ConsFull(DualRating, s, e, d, rest, s + x');
      ConsFull(DualOffset, s, e, d, rest, s + x');
    }
  }

  /** A running maximum over the rest of the input, from a best pair that
      bounds the first segment and is either `b` or attained there, is one
      over the whole input from `b`. */
  lemma TailPrefixMax(rating: int, offset: int, b: Best, b': Best, s: int, fs: seq<FullSegment<DualInfo>>, t: int)
    requires Tiles(s, fs) && |fs| > 0
    requires fs[0].span.end <= t < FullEnd(s, fs)
    requires b'.rating >= b.rating
    requires forall x :: 0 <= x < fs[0].span.end - s ==> DualRating(fs[0].data, x) <= b'.rating
    requires b' == b
          || exists x :: 0 <= x < fs[0].span.end - s
               && DualRating(fs[0].data, x) == b'.rating && DualOffset(fs[0].data, x) == b'.offset
    requires Tiles(fs[0].span.end, fs[1..]) && t < FullEnd(fs[0].span.end, fs[1..])
    requires PrefixMax(rating, offset, b', fs[0].span.end, fs[1..], t)
    ensures PrefixMax(rating, offset, b, s, fs, t)
  {
    var e := fs[0].span.end;
    var d := fs[0].data;
    var rest := fs[1..];
    assert fs == [FullSegment(PointSpan(s, e), d)] + rest;
    ConsFull(DualRating, s, e, d, rest, t);
    forall t' | s <= t' <= t ensures Eval(DualRating, s, DiscardStartTimes(fs), t') <= rating {
      ConsFull(DualRating, s, e, d, rest, t');
      if t' < e {
        assert DualRating(d, t' - s) <= b'.rating;
      }
    }
    if !(rating == b.rating && offset == b.offset) {
      if rating == b'.rating && offset == b'.offset {
        var x' :| 0 <= x' < e - s && DualRating(d, x') == rating && DualOffset(d, x') == offset;
        ConsFull(DualRating, s, e, d, rest, s + x');
        ConsFull(DualOffset, s, e, d, rest, s + x');
      } else {
        var t' :| e <= t' <= t
          && Eval(DualRating, e, DiscardStartTimes(rest), t') == rating
          && Eval(DualOffset, e, DiscardStartTimes(rest), t') == offset;
        ConsFull(DualRating, s, e, d, rest, t');
        ConsFull(DualOffset, s, e, d, rest, t');
      }
    }
  }

  /** Inside the first input segment, the output is the running maximum. */
  lemma FromValuesHead(b: Best, s: int, fs: seq<FullSegment<DualInfo>>, t: int)
    requires Tiles(s, fs) && |fs| > 0
    requires s <= t < fs[0].span.end
    ensures fs[0].span.end <= FullEnd(s, fs)
    ensures var out := DiscardStartTimes(LeftToRightFrom(b, s, fs));
      PrefixMax(Eval(DualRating, s, out, t), Eval(DualOffset, s, out, t), b, s, fs, t)
  {
    assert fs == [FullSegment(PointSpan(s, fs[0].span.end), fs[0].data)] + fs[1..];
    ConsFull(DualRating, s, fs[0].span.end, fs[0].data, fs[1..], t);
    FromSplit(DualRating, b, s, fs, t);
    FromSplit(DualOffset, b, s, fs, t);
    var pieces := DiscardStartTimes(Step(b, fs[0]).0);
    StepValues(b, fs[0], t);
    HeadPrefixMax(Eval(DualRating, s, pieces, t), Eval(DualOffset, s, pieces, t), b, s, fs, t);
  }

  /** Past the first input segment, the output is the running maximum of
      the rest from the best pair the first segment leaves. */
  lemma {:induction false} FromValuesTail(b: Best, s: int, fs: seq<FullSegment<DualInfo>>, t: int)
    requires Tiles(s, fs) && |fs| > 0
    requires fs[0].span.end <= t < FullEnd(s, fs)
    ensures var out := DiscardStartTimes(LeftToRightFrom(b, s, fs));
      PrefixMax(Eval(DualRating, s, out, t), Eval(DualOffset, s, out, t), b, s, fs, t)
    decreases |fs|, 0
  {
    var e := fs[0].span.end;
    var b' := Step(b, fs[0]).1;
    FromSplit(DualRating, b, s, fs, t);
    FromSplit(DualOffset, b, s, fs, t);
    TilesIncreasing(e, fs[1..]);
    assert DiscardStartTimes(fs)[1..] == DiscardStartTimes(fs[1..]);
    var tail := DiscardStartTimes(LeftToRightFrom(b', e, fs[1..]));
    FromValues(b', e, fs[1..], t);
    StepBest(b, fs[0]);
    TailPrefixMax(Eval(DualRating, e, tail, t), Eval(DualOffset, e, tail, t), b, b', s, fs, t);
  }

  /** The output of the iterator at every point `t` of the range is the
      running maximum over `[s, t]` of the best pair it starts from and the
      input. */
  lemma {:induction false} FromValues(b: Best, s: int, fs: seq<FullSegment<DualInfo>>, t: int)
    requires Tiles(s, fs)
    requires s <= t < FullEnd(s, fs)
    ensures var out := DiscardStartTimes(LeftToRightFrom(b, s, fs));
      PrefixMax(Eval(DualRating, s, out, t), Eval(DualOffset, s, out, t), b, s, fs, t)
    decreases |fs|, 1
  {
    assert |fs| > 0;
    if t < fs[0].span.end {
      FromValuesHead(b, s, fs, t);
    } else {
      FromValuesTail(b, s, fs, t);
    }
  }

  /** `left_to_right_maximum` at every point `t` of the range: the running
      maximum over `[start, t]` of the input, starting from rating 0 at the
      start point. */
  lemma LeftToRightMaximumValues(start: int, fs: seq<FullSegment<DualInfo>>, t: int)
    requires Tiles(start, fs)
    requires start <= t < FullEnd(start, fs)
    ensures var out := DiscardStartTimes(LeftToRightMaximum(start, fs));
      PrefixMax(Eval(DualRating, start, out, t), Eval(DualOffset, start, out, t), Best(0, start), start, fs, t)
  {
    FromValues(Best(0, start), start, fs, t);
  }

  /** The rating of `left_to_right_maximum` never decreases from left to
      right. */
  lemma LeftToRightMaximumMonotone(start: int, fs: seq<FullSegment<DualInfo>>, t1: int, t2: int)
    requires Tiles(start, fs)
    requires start <= t1 <= t2 < FullEnd(start, fs)
    ensures Eval(DualRating, start, DiscardStartTimes(LeftToRightMaximum(start, fs)), t1)
         <= Eval(DualRating, start, DiscardStartTimes(LeftToRightMaximum(start, fs)), t2)
  {
    var out := DiscardStartTimes(LeftToRightMaximum(start, fs));
    LeftToRightMaximumValues(start, fs, t1);
    LeftToRightMaximumValues(start, fs, t2);
    var r1 := Eval(DualRating, start, out, t1);
    var o1 := Eval(DualOffset, start, out, t1);
    if !(r1 == 0 && o1 == start) {
      var t' :| start <= t' <= t1
        && Eval(DualRating, start, DiscardStartTimes(fs), t') == r1
        && Eval(DualOffset, start, DiscardStartTimes(fs), t') == o1;
      assert start <= t' <= t2;
    }
  }
}
