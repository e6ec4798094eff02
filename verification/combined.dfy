/** `CombinedMaximumDualIterator` of segments.rs: the pointwise maximum of
    two dual (rating + offset) functions over the same range. It walks both
    inputs like the adder; on each common piece it emits the input that is
    at least as good at both ends, or, when the two cross, the better one up
    to the switch point and the other one (advanced to the switch point)
    from there on. */
module CombinedMaximum {
  import opened Arith
  import opened SegmentData
  import opened SegmentSeq
  import opened Lanes

  /** `get_switch_point`: the first offset after the crossing of the two
      linear functions, assuming `div_by_delta_to_i64` rounds down. */
  function SwitchPoint(startRating1: int, startRating2: int, delta1: int, delta2: int): int
    requires delta1 != delta2
  {
    FloorDiv(startRating2 - startRating1, delta1 - delta2) + 1
  }

  /** `(rating, offset)` is the maximum of two candidates: its rating is the
      larger rating, and it is a candidate with that rating (the rating and
      offset come from the same input). */
  predicate MaxOf(rating: int, offset: int, rating1: int, offset1: int, rating2: int, offset2: int) {
    rating == Max(rating1, rating2)
    && ((rating == rating1 && offset == offset1) || (rating == rating2 && offset == offset2))
  }

  /** A linear function that is at least another at both ends of `[0, len)`
      is at least it everywhere in between. */
  lemma Dominates(upper: RatingInfo, lower: RatingInfo, len: int, x: int)
    requires len >= 1
    requires upper.StartRating() >= lower.StartRating() && upper.EndRating(len) >= lower.EndRating(len)
    ensures 0 <= x < len ==> upper.GetAt(x) >= lower.GetAt(x)
  {
    var k := upper.delta - lower.delta;
    assert upper.GetAt(x) - lower.GetAt(x) == upper.rating - lower.rating + k * x;
    assert upper.EndRating(len) - lower.EndRating(len) == upper.rating - lower.rating + k * (len - 1);
    if 0 <= x < len {
      if k < 0 {
        NegativeScale(k, x, len - 1);
      } else {
        assert k * x >= 0;
      }
    }
  }

  /** Two crossing linear functions: `upper` starts strictly above `lower`
      and ends strictly below it on `[0, len)`. Their deltas differ and the
      switch point lies strictly inside `(0, len)`, as the source asserts. */
  lemma CrossingBounds(upper: RatingInfo, lower: RatingInfo, len: int)
    requires len >= 1
    requires upper.StartRating() > lower.StartRating() && upper.EndRating(len) < lower.EndRating(len)
    ensures upper.delta != lower.delta
    ensures 0 < SwitchPoint(upper.rating, lower.rating, upper.delta, lower.delta) < len
  {
    CrossingValues(upper, lower, len, 0);
    CrossingValues(upper, lower, len, len - 1);
  }

  /** Crossing linear functions: `upper` is at least `lower` before the
      switch point, and `lower` is strictly better from it on. */
  lemma CrossingValues(upper: RatingInfo, lower: RatingInfo, len: int, x: int)
    requires len >= 1
    requires upper.StartRating() > lower.StartRating() && upper.EndRating(len) < lower.EndRating(len)
    ensures upper.delta != lower.delta
    ensures x < SwitchPoint(upper.rating, lower.rating, upper.delta, lower.delta) ==> upper.GetAt(x) >= lower.GetAt(x)
    ensures x >= SwitchPoint(upper.rating, lower.rating, upper.delta, lower.delta) ==> lower.GetAt(x) > upper.GetAt(x)
  {
    var k := upper.delta - lower.delta;
    var dr := upper.rating - lower.rating;
    assert upper.EndRating(len) - lower.EndRating(len) == dr + k * (len - 1);
    assert k < 0;
    var q := FloorDiv(-dr, k);
    assert SwitchPoint(upper.rating, lower.rating, upper.delta, lower.delta) == q + 1;
    assert upper.GetAt(x) - lower.GetAt(x) == dr + k * x;
    DecreasingLine(dr, k, q, x);
  }

  /** A line `dr + k * x` with negative slope `k`, whose floor-divided root
      is `q`, is non-negative up to `q` and negative after it. */
  lemma DecreasingLine(dr: int, k: int, q: int, x: int)
    requires k < 0 && q == FloorDiv(-dr, k)
    ensures x <= q ==> dr + k * x >= 0
    ensures x > q ==> dr + k * x < 0
  {
    if x <= q {
      NegativeScale(k, x, q);
    } else {
      NegativeScale(k, q + 1, x);
    }
  }

  /** Multiplying by a negative number reverses order. */
  lemma NegativeScale(k: int, a: int, b: int)
    requires k < 0 && a <= b
    ensures k * a >= k * b
  {
    assert k * b - k * a == k * (b - a);
  }

  /** Two full segments `[s, m)` and `[m, e)` in front of a tiling of the rest. */
  function TwoPieces(s: int, m: int, e: int, a: DualInfo, b: DualInfo, rest: seq<FullSegment<DualInfo>>): (r: seq<FullSegment<DualInfo>>)
    requires s < m < e && Tiles(e, rest)
    ensures Tiles(s, r) && FullEnd(s, r) == FullEnd(e, rest) >= e
  {
    var tail := [FullSegment(PointSpan(m, e), b)] + rest;
    ConsFull(DualRating, m, e, b, rest, s);
    ConsFull(DualRating, s, m, a, tail, s);
    [FullSegment(PointSpan(s, m), a)] + tail
  }

  /** `generate_maximum_segments` for the common piece `[s, e)` of two heads
      with data `d1` and `d2`, followed by the segments `rest` of the
      remaining range. A second piece, when there is one, is the segment the
      source keeps as `stored_segment` and emits next. */
  function GenerateMaximum(s: int, e: int, d1: DualInfo, d2: DualInfo, rest: seq<FullSegment<DualInfo>>): (r: seq<FullSegment<DualInfo>>)
    requires s < e && Tiles(e, rest)
    ensures Tiles(s, r) && FullEnd(s, r) == FullEnd(e, rest) >= e
  {
    var len := e - s;
    var r1 := d1.ratingInfo;
    var r2 := d2.ratingInfo;
    if r1.StartRating() >= r2.StartRating() && r1.EndRating(len) >= r2.EndRating(len) then
      ConsFull(DualRating, s, e, d1, rest, s);
      [FullSegment(PointSpan(s, e), d1)] + rest
    else if r1.StartRating() <= r2.StartRating() && r1.EndRating(len) <= r2.EndRating(len) then
      ConsFull(DualRating, s, e, d2, rest, s);
      [FullSegment(PointSpan(s, e), d2)] + rest
    else if r1.StartRating() > r2.StartRating() && r1.EndRating(len) < r2.EndRating(len) then
      CrossingPieces(s, e, d1, d2, rest)
    else
      CrossingPieces(s, e, d2, d1, rest)
  }

  /** `get_switch_point` does not depend on which input is first, so the
      switch point of `CrossingPieces` is the one the source computes from
      the first and second input in that order. */
  lemma SwitchPointSymmetric(r1: RatingInfo, r2: RatingInfo)
    requires r1.delta != r2.delta
    ensures SwitchPoint(r1.rating, r2.rating, r1.delta, r2.delta) == SwitchPoint(r2.rating, r1.rating, r2.delta, r1.delta)
  {
  }

  /** The function of `TwoPieces`: `a` on `[s, m)`, `b` (from `m`) on
      `[m, e)`, then the rest. */
  lemma TwoPiecesValues<V>(val: (DualInfo, int) -> V, s: int, m: int, e: int, a: DualInfo, b: DualInfo,
                           rest: seq<FullSegment<DualInfo>>, t: int)
    requires s < m < e && Tiles(e, rest)
    requires s <= t < FullEnd(e, rest)
    ensures t < m ==> Eval(val, s, DiscardStartTimes(TwoPieces(s, m, e, a, b, rest)), t) == val(a, t - s)
    ensures m <= t < e ==> Eval(val, s, DiscardStartTimes(TwoPieces(s, m, e, a, b, rest)), t) == val(b, t - m)
    ensures e <= t ==>
      Eval(val, s, DiscardStartTimes(TwoPieces(s, m, e, a, b, rest)), t) == Eval(val, e, DiscardStartTimes(rest), t)
  {
    var tail := [FullSegment(PointSpan(m, e), b)] + rest;
    ConsFull(val, m, e, b, rest, t);
    ConsFull(val, s, m, a, tail, t);
  }

  /** Both parts of an advanced dual segment are its parts `len` points later. */
  lemma DualAdvancedParts(d: DualInfo, len: int, x: int)
    ensures DualRating(d.Advanced(len), x) == DualRating(d, len + x)
    ensures DualOffset(d.Advanced(len), x) == DualOffset(d, len + x)
  {
    DualAdvancedValue(d, len, x);
  }

  /** The piece `[s, e)` emitted whole because `up` is at least `low` at both ends. */
  lemma DominatedPieceValues(s: int, e: int, up: DualInfo, low: DualInfo, rest: seq<FullSegment<DualInfo>>, t: int)
    requires s < e && Tiles(e, rest)
    requires s <= t < FullEnd(e, rest)
    requires up.ratingInfo.StartRating() >= low.ratingInfo.StartRating()
    requires up.ratingInfo.EndRating(e - s) >= low.ratingInfo.EndRating(e - s)
    ensures t < e ==>
      MaxOf(Eval(DualRating, s, DiscardStartTimes([FullSegment(PointSpan(s, e), up)] + rest), t),
            Eval(DualOffset, s, DiscardStartTimes([FullSegment(PointSpan(s, e), up)] + rest), t),
            DualRating(up, t - s), DualOffset(up, t - s), DualRating(low, t - s), DualOffset(low, t - s))
    ensures e <= t ==>
      Eval(DualRating, s, DiscardStartTimes([FullSegment(PointSpan(s, e), up)] + rest), t)
      == Eval(DualRating, e, DiscardStartTimes(rest), t)
    ensures e <= t ==>
      Eval(DualOffset, s, DiscardStartTimes([FullSegment(PointSpan(s, e), up)] + rest), t)
      == Eval(DualOffset, e, DiscardStartTimes(rest), t)
  {
    ConsFull(DualRating, s, e, up, rest, t);
    ConsFull(DualOffset, s, e, up, rest, t);
    Dominates(up.ratingInfo, low.ratingInfo, e - s, t - s);
  }

  /** The switch point of two heads that cross on `[s, e)`. */
  function CrossingSwitch(s: int, e: int, up: DualInfo, low: DualInfo): (sp: int)
    requires up.ratingInfo.StartRating() > low.ratingInfo.StartRating()
    requires up.ratingInfo.EndRating(e - s) < low.ratingInfo.EndRating(e - s)
    requires s < e
    ensures 0 < sp < e - s
  {
    CrossingBounds(up.ratingInfo, low.ratingInfo, e - s);
    SwitchPoint(up.ratingInfo.rating, low.ratingInfo.rating, up.ratingInfo.delta, low.ratingInfo.delta)
  }

  /** The pieces emitted when `up` starts above `low` and ends below it:
      `up` up to the switch point, then `low` advanced to it. */
  function CrossingPieces(s: int, e: int, up: DualInfo, low: DualInfo, rest: seq<FullSegment<DualInfo>>): (r: seq<FullSegment<DualInfo>>)
    requires s < e && Tiles(e, rest)
    requires up.ratingInfo.StartRating() > low.ratingInfo.StartRating()
    requires up.ratingInfo.EndRating(e - s) < low.ratingInfo.EndRating(e - s)
    ensures Tiles(s, r) && FullEnd(s, r) == FullEnd(e, rest) >= e
  {
    var sp := CrossingSwitch(s, e, up, low);
    TwoPieces(s, s + sp, e, up, low.Advanced(sp), rest)
  }

  /** The function of the crossing pieces for any value function: `up`
      before the switch point, advanced `low` from it to `e`, then the rest. */
  lemma CrossingPiecesEval<V>(val: (DualInfo, int) -> V, s: int, e: int, up: DualInfo, low: DualInfo,
                              rest: seq<FullSegment<DualInfo>>, t: int)
    requires s < e && Tiles(e, rest)
    requires s <= t < FullEnd(e, rest)
    requires up.ratingInfo.StartRating() > low.ratingInfo.StartRating()
    requires up.ratingInfo.EndRating(e - s) < low.ratingInfo.EndRating(e - s)
    ensures t < s + CrossingSwitch(s, e, up, low) ==>
      Eval(val, s, DiscardStartTimes(CrossingPieces(s, e, up, low, rest)), t) == val(up, t - s)
    ensures s + CrossingSwitch(s, e, up, low) <= t < e ==>
      Eval(val, s, DiscardStartTimes(CrossingPieces(s, e, up, low, rest)), t)
      == val(low.Advanced(CrossingSwitch(s, e, up, low)), t - s - CrossingSwitch(s, e, up, low))
    ensures e <= t ==>
      Eval(val, s, DiscardStartTimes(CrossingPieces(s, e, up, low, rest)), t) == Eval(val, e, DiscardStartTimes(rest), t)
  {
    var sp := CrossingSwitch(s, e, up, low);
    if t < s + sp {
      CrossingBefore(val, s, e, up, low, rest, t);
    } else if t < e {
      CrossingBetween(val, s, e, up, low, rest, t);
    } else {
      CrossingAfter(val, s, e, up, low, rest, t);
    }
  }

  lemma CrossingBefore<V>(val: (DualInfo, int) -> V, s: int, e: int, up: DualInfo, low: DualInfo,
                          rest: seq<FullSegment<DualInfo>>, t: int)
    requires s < e && Tiles(e, rest)
    requires up.ratingInfo.StartRating() > low.ratingInfo.StartRating()
    requires up.ratingInfo.EndRating(e - s) < low.ratingInfo.EndRating(e - s)
    requires s <= t < s + CrossingSwitch(s, e, up, low)
    ensures Eval(val, s, DiscardStartTimes(CrossingPieces(s, e, up, low, rest)), t) == val(up, t - s)
  {
    CrossingPiecesAre(s, e, up, low, rest);
    var sp := CrossingSwitch(s, e, up, low);
    TwoPiecesValues(val, s, s + sp, e, up, low.Advanced(sp), rest, t);
  }

  lemma CrossingBetween<V>(val: (DualInfo, int) -> V, s: int, e: int, up: DualInfo, low: DualInfo,
                           rest: seq<FullSegment<DualInfo>>, t: int)
    requires s < e && Tiles(e, rest)
    requires up.ratingInfo.StartRating() > low.ratingInfo.StartRating()
    requires up.ratingInfo.EndRating(e - s) < low.ratingInfo.EndRating(e - s)
    requires s + CrossingSwitch(s, e, up, low) <= t < e
    ensures Eval(val, s, DiscardStartTimes(CrossingPieces(s, e, up, low, rest)), t)
         == val(low.Advanced(CrossingSwitch(s, e, up, low)), t - s - CrossingSwitch(s, e, up, low))
  {
    CrossingPiecesAre(s, e, up, low, rest);
    var sp := CrossingSwitch(s, e, up, low);
    TwoPiecesValues(val, s, s + sp, e, up, low.Advanced(sp), rest, t);
  }

  lemma CrossingAfter<V>(val: (DualInfo, int) -> V, s: int, e: int, up: DualInfo, low: DualInfo,
                         rest: seq<FullSegment<DualInfo>>, t: int)
    requires s < e && Tiles(e, rest)
    requires up.ratingInfo.StartRating() > low.ratingInfo.StartRating()
    requires up.ratingInfo.EndRating(e - s) < low.ratingInfo.EndRating(e - s)
    requires e <= t < FullEnd(e, rest)
    ensures Eval(val, s, DiscardStartTimes(CrossingPieces(s, e, up, low, rest)), t) == Eval(val, e, DiscardStartTimes(rest), t)
  {
    CrossingPiecesAre(s, e, up, low, rest);
    var sp := CrossingSwitch(s, e, up, low);
    TwoPiecesValues(val, s, s + sp, e, up, low.Advanced(sp), rest, t);
  }

  /** The crossing pieces are two pieces split at the switch point. */
  lemma CrossingPiecesAre(s: int, e: int, up: DualInfo, low: DualInfo, rest: seq<FullSegment<DualInfo>>)
    requires s < e && Tiles(e, rest)
    requires up.ratingInfo.StartRating() > low.ratingInfo.StartRating()
    requires up.ratingInfo.EndRating(e - s) < low.ratingInfo.EndRating(e - s)
    ensures 0 < CrossingSwitch(s, e, up, low) < e - s
    ensures CrossingPieces(s, e, up, low, rest)
         == TwoPieces(s, s + CrossingSwitch(s, e, up, low), e, up, low.Advanced(CrossingSwitch(s, e, up, low)), rest)
  {
  }

  /** Before the switch point the crossing pieces are `up`, after it `low`. */
  lemma CrossingPiecesParts(s: int, e: int, up: DualInfo, low: DualInfo, rest: seq<FullSegment<DualInfo>>, t: int)
    requires s < e && Tiles(e, rest)
    requires s <= t < FullEnd(e, rest)
    requires up.ratingInfo.StartRating() > low.ratingInfo.StartRating()
    requires up.ratingInfo.EndRating(e - s) < low.ratingInfo.EndRating(e - s)
    ensures t < s + CrossingSwitch(s, e, up, low) ==>
      Eval(DualRating, s, DiscardStartTimes(CrossingPieces(s, e, up, low, rest)), t) == DualRating(up, t - s)
      && Eval(DualOffset, s, DiscardStartTimes(CrossingPieces(s, e, up, low, rest)), t) == DualOffset(up, t - s)
    ensures s + CrossingSwitch(s, e, up, low) <= t < e ==>
      Eval(DualRating, s, DiscardStartTimes(CrossingPieces(s, e, up, low, rest)), t) == DualRating(low, t - s)
      && Eval(DualOffset, s, DiscardStartTimes(CrossingPieces(s, e, up, low, rest)), t) == DualOffset(low, t - s)
    ensures e <= t ==>
      Eval(DualRating, s, DiscardStartTimes(CrossingPieces(s, e, up, low, rest)), t) == Eval(DualRating, e, DiscardStartTimes(rest), t)
      && Eval(DualOffset, s, DiscardStartTimes(CrossingPieces(s, e, up, low, rest)), t) == Eval(DualOffset, e, DiscardStartTimes(rest), t)
  {
    var sp := CrossingSwitch(s, e, up, low);
    CrossingPiecesEval(DualRating, s, e, up, low, rest, t);
    CrossingPiecesEval(DualOffset, s, e, up, low, rest, t);
    DualAdvancedParts(low, sp, t - s - sp);
  }

  /** On `[s, e)` the crossing pieces are the maximum of `up` and `low`. */
  lemma CrossingPiecesValues(s: int, e: int, up: DualInfo, low: DualInfo, rest: seq<FullSegment<DualInfo>>, t: int)
    requires s < e && Tiles(e, rest)
    requires s <= t < e
    requires up.ratingInfo.StartRating() > low.ratingInfo.StartRating()
    requires up.ratingInfo.EndRating(e - s) < low.ratingInfo.EndRating(e - s)
    ensures MaxOf(Eval(DualRating, s, DiscardStartTimes(CrossingPieces(s, e, up, low, rest)), t),
                  Eval(DualOffset, s, DiscardStartTimes(CrossingPieces(s, e, up, low, rest)), t),
                  DualRating(up, t - s), DualOffset(up, t - s), DualRating(low, t - s), DualOffset(low, t - s))
  {
    TilesIncreasing(e, rest);
    IncreasingBounds(e, DiscardStartTimes(rest));
    CrossingPiecesParts(s, e, up, low, rest, t);
    CrossingValues(up.ratingInfo, low.ratingInfo, e - s, t - s);
  }

  /** On the common piece `[s, e)`, the output of `generate_maximum_segments`
      is the maximum of the two heads: the larger rating, with the offset of
      an input that has it. After `e` it is the rest. */
  lemma GenerateMaximumValues(s: int, e: int, d1: DualInfo, d2: DualInfo, rest: seq<FullSegment<DualInfo>>, t: int)
    requires s < e && Tiles(e, rest)
    requires s <= t < FullEnd(e, rest)
    ensures t < e ==>
      MaxOf(Eval(DualRating, s, DiscardStartTimes(GenerateMaximum(s, e, d1, d2, rest)), t),
            Eval(DualOffset, s, DiscardStartTimes(GenerateMaximum(s, e, d1, d2, rest)), t),
            DualRating(d1, t - s), DualOffset(d1, t - s), DualRating(d2, t - s), DualOffset(d2, t - s))
    ensures e <= t ==>
      Eval(DualRating, s, DiscardStartTimes(GenerateMaximum(s, e, d1, d2, rest)), t)
      == Eval(DualRating, e, DiscardStartTimes(rest), t)
    ensures e <= t ==>
      Eval(DualOffset, s, DiscardStartTimes(GenerateMaximum(s, e, d1, d2, rest)), t)
      == Eval(DualOffset, e, DiscardStartTimes(rest), t)
  {
    var len := e - s;
    var r1 := d1.ratingInfo;
    var r2 := d2.ratingInfo;
    if r1.StartRating() >= r2.StartRating() && r1.EndRating(len) >= r2.EndRating(len) {
      DominatedPieceValues(s, e, d1, d2, rest, t);
    } else if r1.StartRating() <= r2.StartRating() && r1.EndRating(len) <= r2.EndRating(len) {
      DominatedPieceValues(s, e, d2, d1, rest, t);
    } else if r1.StartRating() > r2.StartRating() && r1.EndRating(len) < r2.EndRating(len) {
      CrossingPiecesParts(s, e, d1, d2, rest, t);
      if t < e {
        CrossingPiecesValues(s, e, d1, d2, rest, t);
      }
    } else {
      CrossingPiecesParts(s, e, d2, d1, rest, t);
      if t < e {
        CrossingPiecesValues(s, e, d2, d1, rest, t);
      }
    }
  }

  /** `CombinedMaximumDualIterator` from state `(s, ha, hb)`: one call of
      `generate_maximum_segments` for the common piece up to the nearer head
      end point, then the output from the next state. */
  function CombinedMaximumFrom(s: int, ha: Segment<DualInfo>, ta: seq<Segment<DualInfo>>,
                               hb: Segment<DualInfo>, tb: seq<Segment<DualInfo>>): (r: seq<FullSegment<DualInfo>>)
    requires Aligned(s, ha, ta, hb, tb)
    ensures Tiles(s, r) && FullEnd(s, r) == End(ha.endPoint, ta)
    decreases |ta| + |tb|, 1
  {
    GenerateMaximum(s, PieceEnd(ha, hb), ha.data, hb.data, CombinedMaximumRest(s, ha, ta, hb, tb))
  }

  /** The output after the current piece: nothing after the last piece,
      otherwise the output from the next state. */
  function CombinedMaximumRest(s: int, ha: Segment<DualInfo>, ta: seq<Segment<DualInfo>>,
                               hb: Segment<DualInfo>, tb: seq<Segment<DualInfo>>): (r: seq<FullSegment<DualInfo>>)
    requires Aligned(s, ha, ta, hb, tb)
    ensures s < PieceEnd(ha, hb)
    ensures Tiles(PieceEnd(ha, hb), r) && FullEnd(PieceEnd(ha, hb), r) == End(ha.endPoint, ta)
    decreases |ta| + |tb|, 0
  {
    LaneEnd(s, ha, ta);
    LaneEnd(s, hb, tb);
    if LastPiece(ha, ta, hb) then []
    else
      var n := NextLanes(AdvanceDual, AdvanceDual, s, ha, ta, hb, tb);
      CombinedMaximumFrom(n.s, n.ha, n.ta, n.hb, n.tb)
  }

  /** At `t` the output from state `(s, ha, hb)` is the maximum of the two
      lanes: the larger rating, with the offset of a lane that has it. */
  predicate MaximumAt(s: int, ha: Segment<DualInfo>, ta: seq<Segment<DualInfo>>,
                      hb: Segment<DualInfo>, tb: seq<Segment<DualInfo>>, t: int)
    requires Aligned(s, ha, ta, hb, tb)
    requires s <= t < End(ha.endPoint, ta)
  {
    MaxOf(Eval(DualRating, s, DiscardStartTimes(CombinedMaximumFrom(s, ha, ta, hb, tb)), t),
          Eval(DualOffset, s, DiscardStartTimes(CombinedMaximumFrom(s, ha, ta, hb, tb)), t),
          LaneEval(DualRating, s, ha, ta, t), LaneEval(DualOffset, s, ha, ta, t),
          LaneEval(DualRating, s, hb, tb, t), LaneEval(DualOffset, s, hb, tb, t))
  }

  /** At every point of the common range the output is the maximum of the
      two lanes. */
  lemma {:induction false} CombinedMaximumFromValues(s: int, ha: Segment<DualInfo>, ta: seq<Segment<DualInfo>>,
                                                     hb: Segment<DualInfo>, tb: seq<Segment<DualInfo>>, t: int)
    requires Aligned(s, ha, ta, hb, tb)
    requires s <= t < End(ha.endPoint, ta)
    ensures MaximumAt(s, ha, ta, hb, tb, t)
    decreases |ta| + |tb|, 1
  {
    var e := PieceEnd(ha, hb);
    var rest := CombinedMaximumRest(s, ha, ta, hb, tb);
    assert CombinedMaximumFrom(s, ha, ta, hb, tb) == GenerateMaximum(s, e, ha.data, hb.data, rest);
    GenerateMaximumValues(s, e, ha.data, hb.data, rest, t);
    LaneEnd(s, ha, ta);
    LaneEnd(s, hb, tb);
    if t < e {
      assert LaneEval(DualRating, s, ha, ta, t) == DualRating(ha.data, t - s);
      assert LaneEval(DualOffset, s, ha, ta, t) == DualOffset(ha.data, t - s);
      assert LaneEval(DualRating, s, hb, tb, t) == DualRating(hb.data, t - s);
      assert LaneEval(DualOffset, s, hb, tb, t) == DualOffset(hb.data, t - s);
    } else if ha.endPoint < hb.endPoint {
      CombinedMaximumStepA(s, ha, ta, hb, tb, t);
    } else if hb.endPoint < ha.endPoint {
      CombinedMaximumStepB(s, ha, ta, hb, tb, t);
    } else {
      CombinedMaximumStepBoth(s, ha, ta, hb, tb, t);
    }
  }

  /** Past the end of the first head, when it ends first: the output there is
      the output from the state with the first head consumed and the
      second advanced. */
  lemma {:induction false} CombinedMaximumStepA(s: int, ha: Segment<DualInfo>, ta: seq<Segment<DualInfo>>,
                                                hb: Segment<DualInfo>, tb: seq<Segment<DualInfo>>, t: int)
    requires Aligned(s, ha, ta, hb, tb) && ha.endPoint < hb.endPoint
    requires ha.endPoint <= t < End(ha.endPoint, ta)
    ensures MaximumAt(s, ha, ta, hb, tb, t)
    decreases |ta| + |tb|, 0
  {
    var ea := ha.endPoint;
    var hb' := Segment(hb.endPoint, hb.data.Advanced(ea - s));
    var rest := CombinedMaximumRest(s, ha, ta, hb, tb);
    assert CombinedMaximumFrom(s, ha, ta, hb, tb) == GenerateMaximum(s, ea, ha.data, hb.data, rest);
    GenerateMaximumValues(s, ea, ha.data, hb.data, rest, t);
    assert NextLanes(AdvanceDual, AdvanceDual, s, ha, ta, hb, tb) == LaneState(ea, ta[0], ta[1..], hb', tb);
    assert rest == CombinedMaximumFrom(ea, ta[0], ta[1..], hb', tb);
    CombinedMaximumFromValues(ea, ta[0], ta[1..], hb', tb, t);
    DualAdvanceLane(s, hb, tb, ea, t);
    AsLane(DualRating, ea, ta, t);
    AsLane(DualOffset, ea, ta, t);
    assert LaneEval(DualRating, s, ha, ta, t) == Eval(DualRating, ea, ta, t);
    assert LaneEval(DualOffset, s, ha, ta, t) == Eval(DualOffset, ea, ta, t);
  }



  /** The mirror image: past the end of the second head, when it ends first. */
  lemma {:induction false} CombinedMaximumStepB(s: int, ha: Segment<DualInfo>, ta: seq<Segment<DualInfo>>,
                                                hb: Segment<DualInfo>, tb: seq<Segment<DualInfo>>, t: int)
    requires Aligned(s, ha, ta, hb, tb) && hb.endPoint < ha.endPoint
    requires hb.endPoint <= t < End(ha.endPoint, ta)
    ensures MaximumAt(s, ha, ta, hb, tb, t)
    decreases |ta| + |tb|, 0
  {
    var eb := hb.endPoint;
    var ha' := Segment(ha.endPoint, ha.data.Advanced(eb - s));
    var rest := CombinedMaximumRest(s, ha, ta, hb, tb);
    assert CombinedMaximumFrom(s, ha, ta, hb, tb) == GenerateMaximum(s, eb, ha.data, hb.data, rest);
    GenerateMaximumValues(s, eb, ha.data, hb.data, rest, t);
    assert NextLanes(AdvanceDual, AdvanceDual, s, ha, ta, hb, tb) == LaneState(eb, ha', ta, tb[0], tb[1..]);
    assert rest == CombinedMaximumFrom(eb, ha', ta, tb[0], tb[1..]);
    CombinedMaximumFromValues(eb, ha', ta, tb[0], tb[1..], t);
    DualAdvanceLane(s, ha, ta, eb, t);
    AsLane(DualRating, eb, tb, t);
    AsLane(DualOffset, eb, tb, t);
    assert LaneEval(DualRating, s, hb, tb, t) == Eval(DualRating, eb, tb, t);
    assert LaneEval(DualOffset, s, hb, tb, t) == Eval(DualOffset, eb, tb, t);
  }



  /** Past a common end point: both heads are consumed. */
  lemma {:induction false} CombinedMaximumStepBoth(s: int, ha: Segment<DualInfo>, ta: seq<Segment<DualInfo>>,
                                                   hb: Segment<DualInfo>, tb: seq<Segment<DualInfo>>, t: int)
    requires Aligned(s, ha, ta, hb, tb) && ha.endPoint == hb.endPoint
    requires ha.endPoint <= t < End(ha.endPoint, ta)
    ensures MaximumAt(s, ha, ta, hb, tb, t)
    decreases |ta| + |tb|, 0
  {
    var e := ha.endPoint;
    LaneEnd(s, ha, ta);
    LaneEnd(s, hb, tb);
    NextOfLane(s, ha, ta);
    NextOfLane(s, hb, tb);
    var rest := CombinedMaximumRest(s, ha, ta, hb, tb);
    assert CombinedMaximumFrom(s, ha, ta, hb, tb) == GenerateMaximum(s, e, ha.data, hb.data, rest);
    GenerateMaximumValues(s, e, ha.data, hb.data, rest, t);
    assert NextLanes(AdvanceDual, AdvanceDual, s, ha, ta, hb, tb) == LaneState(e, ta[0], ta[1..], tb[0], tb[1..]);
    assert rest == CombinedMaximumFrom(e, ta[0], ta[1..], tb[0], tb[1..]);
    CombinedMaximumFromValues(e, ta[0], ta[1..], tb[0], tb[1..], t);
    AsLane(DualRating, e, ta, t);
    AsLane(DualOffset, e, ta, t);
    AsLane(DualRating, e, tb, t);
    AsLane(DualOffset, e, tb, t);
  }

  /** `combined_maximum_of_dual_iterators`: the maximum of two dual
      sequences over the same range. */
  function CombinedMaximumOf(start: int, a: seq<Segment<DualInfo>>, b: seq<Segment<DualInfo>>): (r: seq<FullSegment<DualInfo>>)
    requires SameRange(start, a, b)
    ensures Tiles(start, r) && FullEnd(start, r) == End(start, a)
  {
    AsLane(DualRating, start, a, start);
    AsLane(DualRating, start, b, start);
    CombinedMaximumFrom(start, a[0], a[1..], b[0], b[1..])
  }

  /** At every point of the range, the combined maximum has the larger of
      the two ratings, together with the offset of an input that has it. */
  lemma CombinedMaximumIsMaximum(start: int, a: seq<Segment<DualInfo>>, b: seq<Segment<DualInfo>>, t: int)
    requires SameRange(start, a, b)
    requires start <= t < End(start, a)
    ensures MaxOf(Eval(DualRating, start, DiscardStartTimes(CombinedMaximumOf(start, a, b)), t),
                  Eval(DualOffset, start, DiscardStartTimes(CombinedMaximumOf(start, a, b)), t),
                  Eval(DualRating, start, a, t), Eval(DualOffset, start, a, t),
                  Eval(DualRating, start, b, t), Eval(DualOffset, start, b, t))
  {
    AsLane(DualRating, start, a, t);
    AsLane(DualOffset, start, a, t);
    AsLane(DualRating, start, b, t);
    AsLane(DualOffset, start, b, t);
    CombinedMaximumFromValues(start, a[0], a[1..], b[0], b[1..], t);
  }
}
