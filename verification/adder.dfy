/** `RatingAdderIterator` and `RatingAdderIterator2` of segments.rs: the
    pointwise sum of two piecewise functions over the same range. The state
    is the current segment start `s` and, for each input, its current
    (possibly advanced) head segment and the segments still to come; every
    `next()` emits one full segment up to the nearer head end point. */
module Adder {
  import opened SegmentData
  import opened SegmentSeq
  import opened Lanes

  /** `RatingAdderIterator` from state `(s, ha, hb)`: one full segment up
      to the nearer head end point carrying the sum of the two heads, then
      the output from the next state. The output tiles the common range. */
  function RatingAdderFrom(s: int, ha: Segment<RatingInfo>, ta: seq<Segment<RatingInfo>>,
                           hb: Segment<RatingInfo>, tb: seq<Segment<RatingInfo>>): (r: seq<FullSegment<RatingInfo>>)
    requires Aligned(s, ha, ta, hb, tb)
    ensures Tiles(s, r) && FullEnd(s, r) == End(ha.endPoint, ta)
    decreases |ta| + |tb|, 1
  {
    var rest := RatingAdderRest(s, ha, ta, hb, tb);
    ConsFull(RatingValue, s, PieceEnd(ha, hb), ha.data.Plus(hb.data), rest, s);
    [FullSegment(PointSpan(s, PieceEnd(ha, hb)), ha.data.Plus(hb.data))] + rest
  }

  /** The output after the current piece: nothing after the last piece,
      otherwise the sum from the next state. */
  function RatingAdderRest(s: int, ha: Segment<RatingInfo>, ta: seq<Segment<RatingInfo>>,
                           hb: Segment<RatingInfo>, tb: seq<Segment<RatingInfo>>): (r: seq<FullSegment<RatingInfo>>)
    requires Aligned(s, ha, ta, hb, tb)
    ensures s < PieceEnd(ha, hb)
    ensures Tiles(PieceEnd(ha, hb), r) && FullEnd(PieceEnd(ha, hb), r) == End(ha.endPoint, ta)
    decreases |ta| + |tb|, 0
  {
    LaneEnd(s, ha, ta);
    LaneEnd(s, hb, tb);
    if LastPiece(ha, ta, hb) then []
    else
      var n := NextLanes(AdvanceRating, AdvanceRating, s, ha, ta, hb, tb);
      RatingAdderFrom(n.s, n.ha, n.ta, n.hb, n.tb)
  }

  /** Membership form of `RatingAdderEndPoints`, one point at a time. */
  lemma {:induction false} RatingAdderEndPoint(s: int, ha: Segment<RatingInfo>, ta: seq<Segment<RatingInfo>>,
      hb: Segment<RatingInfo>, tb: seq<Segment<RatingInfo>>, p: int)
    requires Aligned(s, ha, ta, hb, tb)
    ensures p in EndPoints(DiscardStartTimes(RatingAdderFrom(s, ha, ta, hb, tb)))
        <==> p == ha.endPoint || p in EndPoints(ta) || p == hb.endPoint || p in EndPoints(tb)
    decreases |ta| + |tb|, 1
  {
    if ha.endPoint < hb.endPoint {
      RatingAdderEndPointA(s, ha, ta, hb, tb, p);
    } else if hb.endPoint < ha.endPoint {
      RatingAdderEndPointB(s, ha, ta, hb, tb, p);
    } else {
      RatingAdderEndPointBoth(s, ha, ta, hb, tb, p);
    }
  }

  lemma {:induction false} RatingAdderEndPointA(s: int, ha: Segment<RatingInfo>, ta: seq<Segment<RatingInfo>>,
      hb: Segment<RatingInfo>, tb: seq<Segment<RatingInfo>>, p: int)
    requires Aligned(s, ha, ta, hb, tb) && ha.endPoint < hb.endPoint
    ensures p in EndPoints(DiscardStartTimes(RatingAdderFrom(s, ha, ta, hb, tb)))
        <==> p == ha.endPoint || p in EndPoints(ta) || p == hb.endPoint || p in EndPoints(tb)
    decreases |ta| + |tb|, 0
  {
    var ea := ha.endPoint;
    var eb := hb.endPoint;
    var d := ha.data.Plus(hb.data);
    LaneEnd(s, hb, tb);
    NextOfLane(s, ha, ta);
    var hb' := Segment(eb, hb.data.Advanced(ea - s));
    var rest := RatingAdderRest(s, ha, ta, hb, tb);
    assert RatingAdderFrom(s, ha, ta, hb, tb) == [FullSegment(PointSpan(s, ea), d)] + rest;
    assert NextLanes(AdvanceRating, AdvanceRating, s, ha, ta, hb, tb) == LaneState(ea, ta[0], ta[1..], hb', tb);
    assert rest == RatingAdderFrom(ea, ta[0], ta[1..], hb', tb);
    RatingAdderEndPoint(ea, ta[0], ta[1..], hb', tb, p);
    ConsFullEndPoints(s, ea, d, rest);
    assert (p in EndPoints(DiscardStartTimes(RatingAdderFrom(s, ha, ta, hb, tb)))) == (p == ea || p in EndPoints(DiscardStartTimes(rest)));
    EndPointsCons(ta);
    assert (p in EndPoints(ta)) == (p == ta[0].endPoint || p in EndPoints(ta[1..]));
  }

  lemma {:induction false} RatingAdderEndPointB(s: int, ha: Segment<RatingInfo>, ta: seq<Segment<RatingInfo>>,
      hb: Segment<RatingInfo>, tb: seq<Segment<RatingInfo>>, p: int)
    requires Aligned(s, ha, ta, hb, tb) && hb.endPoint < ha.endPoint
    ensures p in EndPoints(DiscardStartTimes(RatingAdderFrom(s, ha, ta, hb, tb)))
        <==> p == ha.endPoint || p in EndPoints(ta) || p == hb.endPoint || p in EndPoints(tb)
    decreases |ta| + |tb|, 0
  {
    var ea := ha.endPoint;
    var eb := hb.endPoint;
    var d := ha.data.Plus(hb.data);
    LaneEnd(s, ha, ta);
    NextOfLane(s, hb, tb);
    var ha' := Segment(ea, ha.data.Advanced(eb - s));
    var rest := RatingAdderRest(s, ha, ta, hb, tb);
    assert RatingAdderFrom(s, ha, ta, hb, tb) == [FullSegment(PointSpan(s, eb), d)] + rest;
    assert NextLanes(AdvanceRating, AdvanceRating, s, ha, ta, hb, tb) == LaneState(eb, ha', ta, tb[0], tb[1..]);
    assert rest == RatingAdderFrom(eb, ha', ta, tb[0], tb[1..]);
    RatingAdderEndPoint(eb, ha', ta, tb[0], tb[1..], p);
    ConsFullEndPoints(s, eb, d, rest);
    assert (p in EndPoints(DiscardStartTimes(RatingAdderFrom(s, ha, ta, hb, tb)))) == (p == eb || p in EndPoints(DiscardStartTimes(rest)));
    EndPointsCons(tb);
    assert (p in EndPoints(tb)) == (p == tb[0].endPoint || p in EndPoints(tb[1..]));
  }

  lemma {:induction false} RatingAdderEndPointBoth(s: int, ha: Segment<RatingInfo>, ta: seq<Segment<RatingInfo>>,
      hb: Segment<RatingInfo>, tb: seq<Segment<RatingInfo>>, p: int)
    requires Aligned(s, ha, ta, hb, tb) && hb.endPoint == ha.endPoint
    ensures p in EndPoints(DiscardStartTimes(RatingAdderFrom(s, ha, ta, hb, tb)))
        <==> p == ha.endPoint || p in EndPoints(ta) || p == hb.endPoint || p in EndPoints(tb)
    decreases |ta| + |tb|, 0
  {
    var ea := ha.endPoint;
    var d := ha.data.Plus(hb.data);
    LaneEnd(s, ha, ta);
    LaneEnd(s, hb, tb);
    if |ta| == 0 {
      assert RatingAdderRest(s, ha, ta, hb, tb) == [];
      assert RatingAdderFrom(s, ha, ta, hb, tb) == [FullSegment(PointSpan(s, ea), d)];
      ConsFullEndPoints(s, ea, d, []);
      assert |tb| == 0;
    } else {
      NextOfLane(s, ha, ta);
      NextOfLane(s, hb, tb);
      var rest := RatingAdderRest(s, ha, ta, hb, tb);
      assert RatingAdderFrom(s, ha, ta, hb, tb) == [FullSegment(PointSpan(s, ea), d)] + rest;
      assert NextLanes(AdvanceRating, AdvanceRating, s, ha, ta, hb, tb) == LaneState(ea, ta[0], ta[1..], tb[0], tb[1..]);
      assert rest == RatingAdderFrom(ea, ta[0], ta[1..], tb[0], tb[1..]);
      RatingAdderEndPoint(ea, ta[0], ta[1..], tb[0], tb[1..], p);
      ConsFullEndPoints(s, ea, d, rest);
    assert (p in EndPoints(DiscardStartTimes(RatingAdderFrom(s, ha, ta, hb, tb)))) == (p == ea || p in EndPoints(DiscardStartTimes(rest)));
      EndPointsCons(ta);
      EndPointsCons(tb);
    }
  }

  /** The sum has a segment end exactly at every end point of either input. */
  lemma RatingAdderEndPoints(s: int, ha: Segment<RatingInfo>, ta: seq<Segment<RatingInfo>>,
                             hb: Segment<RatingInfo>, tb: seq<Segment<RatingInfo>>)
    requires Aligned(s, ha, ta, hb, tb)
    ensures EndPoints(DiscardStartTimes(RatingAdderFrom(s, ha, ta, hb, tb)))
         == {ha.endPoint} + EndPoints(ta) + {hb.endPoint} + EndPoints(tb)
  {
    forall p ensures p in EndPoints(DiscardStartTimes(RatingAdderFrom(s, ha, ta, hb, tb)))
        <==> p in {ha.endPoint} + EndPoints(ta) + {hb.endPoint} + EndPoints(tb)
    {
      RatingAdderEndPoint(s, ha, ta, hb, tb, p);
    }
  }

  /** At every point of the common range the sum's rating is the sum of the
      two lanes' ratings. */
  lemma {:induction false} RatingAdderFromValues(s: int, ha: Segment<RatingInfo>, ta: seq<Segment<RatingInfo>>,
                                                 hb: Segment<RatingInfo>, tb: seq<Segment<RatingInfo>>, t: int)
    requires Aligned(s, ha, ta, hb, tb)
    requires s <= t < End(ha.endPoint, ta)
    ensures Eval(RatingValue, s, DiscardStartTimes(RatingAdderFrom(s, ha, ta, hb, tb)), t)
         == LaneEval(RatingValue, s, ha, ta, t) + LaneEval(RatingValue, s, hb, tb, t)
    decreases |ta| + |tb|, 1
  {
    if ha.endPoint < hb.endPoint {
      RatingAdderStepA(s, ha, ta, hb, tb, t);
    } else if hb.endPoint < ha.endPoint {
      RatingAdderStepB(s, ha, ta, hb, tb, t);
    } else {
      RatingAdderStepBoth(s, ha, ta, hb, tb, t);
    }
  }

  /** A `next()` that consumes the head of the first lane and advances the
      head of the second. */
  lemma {:induction false} RatingAdderStepA(s: int, ha: Segment<RatingInfo>, ta: seq<Segment<RatingInfo>>,
                                            hb: Segment<RatingInfo>, tb: seq<Segment<RatingInfo>>, t: int)
    requires Aligned(s, ha, ta, hb, tb) && ha.endPoint < hb.endPoint
    requires s <= t < End(ha.endPoint, ta)
    ensures Eval(RatingValue, s, DiscardStartTimes(RatingAdderFrom(s, ha, ta, hb, tb)), t)
         == LaneEval(RatingValue, s, ha, ta, t) + LaneEval(RatingValue, s, hb, tb, t)
    decreases |ta| + |tb|, 0
  {
    var ea := ha.endPoint;
    var eb := hb.endPoint;
    var d := ha.data.Plus(hb.data);
    LaneEnd(s, hb, tb);
    NextOfLane(s, ha, ta);
    var hb' := Segment(eb, hb.data.Advanced(ea - s));
    var rest := RatingAdderRest(s, ha, ta, hb, tb);
    assert RatingAdderFrom(s, ha, ta, hb, tb) == [FullSegment(PointSpan(s, ea), d)] + rest;
    assert NextLanes(AdvanceRating, AdvanceRating, s, ha, ta, hb, tb) == LaneState(ea, ta[0], ta[1..], hb', tb);
    assert rest == RatingAdderFrom(ea, ta[0], ta[1..], hb', tb);
    ConsFull(RatingValue, s, ea, d, rest, t);
    if t >= ea {
      RatingAdderFromValues(ea, ta[0], ta[1..], hb', tb, t);
      AdvanceLane(s, hb, tb, ea, t);
      AsLane(RatingValue, ea, ta, t);
      assert LaneEval(RatingValue, s, ha, ta, t) == Eval(RatingValue, ea, ta, t);
    } else {
      assert LaneEval(RatingValue, s, ha, ta, t) == RatingValue(ha.data, t - s);
      assert LaneEval(RatingValue, s, hb, tb, t) == RatingValue(hb.data, t - s);
    }
  }

  /** The mirror image: a `next()` that consumes the head of the second
      lane and advances the head of the first. */
  lemma {:induction false} RatingAdderStepB(s: int, ha: Segment<RatingInfo>, ta: seq<Segment<RatingInfo>>,
                                            hb: Segment<RatingInfo>, tb: seq<Segment<RatingInfo>>, t: int)
    requires Aligned(s, ha, ta, hb, tb) && hb.endPoint < ha.endPoint
    requires s <= t < End(ha.endPoint, ta)
    ensures Eval(RatingValue, s, DiscardStartTimes(RatingAdderFrom(s, ha, ta, hb, tb)), t)
         == LaneEval(RatingValue, s, ha, ta, t) + LaneEval(RatingValue, s, hb, tb, t)
    decreases |ta| + |tb|, 0
  {
    var ea := ha.endPoint;
    var eb := hb.endPoint;
    var d := ha.data.Plus(hb.data);
    LaneEnd(s, ha, ta);
    NextOfLane(s, hb, tb);
    var ha' := Segment(ea, ha.data.Advanced(eb - s));
    var rest := RatingAdderRest(s, ha, ta, hb, tb);
    assert RatingAdderFrom(s, ha, ta, hb, tb) == [FullSegment(PointSpan(s, eb), d)] + rest;
    assert NextLanes(AdvanceRating, AdvanceRating, s, ha, ta, hb, tb) == LaneState(eb, ha', ta, tb[0], tb[1..]);
    assert rest == RatingAdderFrom(eb, ha', ta, tb[0], tb[1..]);
    ConsFull(RatingValue, s, eb, d, rest, t);
    if t >= eb {
      RatingAdderFromValues(eb, ha', ta, tb[0], tb[1..], t);
      AdvanceLane(s, ha, ta, eb, t);
      AsLane(RatingValue, eb, tb, t);
      assert LaneEval(RatingValue, s, hb, tb, t) == Eval(RatingValue, eb, tb, t);
    } else {
      assert LaneEval(RatingValue, s, ha, ta, t) == RatingValue(ha.data, t - s);
      assert LaneEval(RatingValue, s, hb, tb, t) == RatingValue(hb.data, t - s);
    }
  }

  /** A `next()` at a common end point consumes both heads, or ends the
      sum when both lanes are exhausted. */
  lemma {:induction false} RatingAdderStepBoth(s: int, ha: Segment<RatingInfo>, ta: seq<Segment<RatingInfo>>,
                                               hb: Segment<RatingInfo>, tb: seq<Segment<RatingInfo>>, t: int)
    requires Aligned(s, ha, ta, hb, tb) && hb.endPoint == ha.endPoint
    requires s <= t < End(ha.endPoint, ta)
    ensures Eval(RatingValue, s, DiscardStartTimes(RatingAdderFrom(s, ha, ta, hb, tb)), t)
         == LaneEval(RatingValue, s, ha, ta, t) + LaneEval(RatingValue, s, hb, tb, t)
    decreases |ta| + |tb|, 0
  {
    var ea := ha.endPoint;
    LaneEnd(s, ha, ta);
    if |ta| == 0 {
      RatingAdderLast(s, ha, ta, hb, tb, t);
    } else {
      RatingAdderBothUnfold(s, ha, ta, hb, tb, t);
      if t >= ea {
        RatingAdderFromValues(ea, ta[0], ta[1..], tb[0], tb[1..], t);
        AsLane(RatingValue, ea, ta, t);
        AsLane(RatingValue, ea, tb, t);
      }
    }
  }

  /** The last piece of the sum is the sum of the two last heads. */
  lemma RatingAdderLast(s: int, ha: Segment<RatingInfo>, ta: seq<Segment<RatingInfo>>,
                        hb: Segment<RatingInfo>, tb: seq<Segment<RatingInfo>>, t: int)
    requires Aligned(s, ha, ta, hb, tb) && hb.endPoint == ha.endPoint && |ta| == 0
    requires s <= t < ha.endPoint
    ensures Eval(RatingValue, s, DiscardStartTimes(RatingAdderFrom(s, ha, ta, hb, tb)), t)
         == LaneEval(RatingValue, s, ha, ta, t) + LaneEval(RatingValue, s, hb, tb, t)
  {
    var ea := ha.endPoint;
    var d := ha.data.Plus(hb.data);
    LaneEnd(s, hb, tb);
    assert RatingAdderRest(s, ha, ta, hb, tb) == [];
    assert RatingAdderFrom(s, ha, ta, hb, tb) == [FullSegment(PointSpan(s, ea), d)];
    ConsFull(RatingValue, s, ea, d, [], t);
  }

  /** At a common end point before the last piece, the sum is the sum of the
      heads up to that point and the sum of both tails after it. */
  lemma RatingAdderBothUnfold(s: int, ha: Segment<RatingInfo>, ta: seq<Segment<RatingInfo>>,
                              hb: Segment<RatingInfo>, tb: seq<Segment<RatingInfo>>, t: int)
    requires Aligned(s, ha, ta, hb, tb) && hb.endPoint == ha.endPoint && |ta| > 0
    requires s <= t < End(ha.endPoint, ta)
    ensures |tb| > 0 && Aligned(ha.endPoint, ta[0], ta[1..], tb[0], tb[1..])
    ensures t < ha.endPoint ==>
      Eval(RatingValue, s, DiscardStartTimes(RatingAdderFrom(s, ha, ta, hb, tb)), t)
      == RatingValue(ha.data, t - s) + RatingValue(hb.data, t - s)
    ensures ha.endPoint <= t ==>
      Eval(RatingValue, s, DiscardStartTimes(RatingAdderFrom(s, ha, ta, hb, tb)), t)
      == Eval(RatingValue, ha.endPoint, DiscardStartTimes(RatingAdderFrom(ha.endPoint, ta[0], ta[1..], tb[0], tb[1..])), t)
  {
    var ea := ha.endPoint;
    var d := ha.data.Plus(hb.data);
    LaneEnd(s, ha, ta);
    LaneEnd(s, hb, tb);
    NextOfLane(s, ha, ta);
    NextOfLane(s, hb, tb);
    var rest := RatingAdderRest(s, ha, ta, hb, tb);
    assert RatingAdderFrom(s, ha, ta, hb, tb) == [FullSegment(PointSpan(s, ea), d)] + rest;
    assert NextLanes(AdvanceRating, AdvanceRating, s, ha, ta, hb, tb) == LaneState(ea, ta[0], ta[1..], tb[0], tb[1..]);
    assert rest == RatingAdderFrom(ea, ta[0], ta[1..], tb[0], tb[1..]);
    ConsFull(RatingValue, s, ea, d, rest, t);
  }

  /** `RatingAdderIterator2` from state `(s, ha, hb)`: the first lane is
      dual, the second a rating; each output segment keeps the first head's
      offset and adds the two heads' ratings. The output tiles the common
      range. */
  function DualAdderFrom(s: int, ha: Segment<DualInfo>, ta: seq<Segment<DualInfo>>,
                         hb: Segment<RatingInfo>, tb: seq<Segment<RatingInfo>>): (r: seq<FullSegment<DualInfo>>)
    requires Aligned(s, ha, ta, hb, tb)
    ensures Tiles(s, r) && FullEnd(s, r) == End(ha.endPoint, ta)
    decreases |ta| + |tb|, 1
  {
    var rest := DualAdderRest(s, ha, ta, hb, tb);
    var d := DualInfo(ha.data.offsetInfo, ha.data.ratingInfo.Plus(hb.data));
    ConsFull(DualRating, s, PieceEnd(ha, hb), d, rest, s);
    [FullSegment(PointSpan(s, PieceEnd(ha, hb)), d)] + rest
  }

  /** The output after the current piece: nothing after the last piece,
      otherwise the sum from the next state. */
  function DualAdderRest(s: int, ha: Segment<DualInfo>, ta: seq<Segment<DualInfo>>,
                         hb: Segment<RatingInfo>, tb: seq<Segment<RatingInfo>>): (r: seq<FullSegment<DualInfo>>)
    requires Aligned(s, ha, ta, hb, tb)
    ensures s < PieceEnd(ha, hb)
    ensures Tiles(PieceEnd(ha, hb), r) && FullEnd(PieceEnd(ha, hb), r) == End(ha.endPoint, ta)
    decreases |ta| + |tb|, 0
  {
    LaneEnd(s, ha, ta);
    LaneEnd(s, hb, tb);
    if LastPiece(ha, ta, hb) then []
    else
      var n := NextLanes(AdvanceDual, AdvanceRating, s, ha, ta, hb, tb);
      DualAdderFrom(n.s, n.ha, n.ta, n.hb, n.tb)
  }

  /** Membership form of `DualAdderEndPoints`, one point at a time. */
  lemma {:induction false} DualAdderEndPoint(s: int, ha: Segment<DualInfo>, ta: seq<Segment<DualInfo>>,
      hb: Segment<RatingInfo>, tb: seq<Segment<RatingInfo>>, p: int)
    requires Aligned(s, ha, ta, hb, tb)
    ensures p in EndPoints(DiscardStartTimes(DualAdderFrom(s, ha, ta, hb, tb)))
        <==> p == ha.endPoint || p in EndPoints(ta) || p == hb.endPoint || p in EndPoints(tb)
    decreases |ta| + |tb|, 1
  {
    if ha.endPoint < hb.endPoint {
      DualAdderEndPointA(s, ha, ta, hb, tb, p);
    } else if hb.endPoint < ha.endPoint {
      DualAdderEndPointB(s, ha, ta, hb, tb, p);
    } else {
      DualAdderEndPointBoth(s, ha, ta, hb, tb, p);
    }
  }

  lemma {:induction false} DualAdderEndPointA(s: int, ha: Segment<DualInfo>, ta: seq<Segment<DualInfo>>,
      hb: Segment<RatingInfo>, tb: seq<Segment<RatingInfo>>, p: int)
    requires Aligned(s, ha, ta, hb, tb) && ha.endPoint < hb.endPoint
    ensures p in EndPoints(DiscardStartTimes(DualAdderFrom(s, ha, ta, hb, tb)))
        <==> p == ha.endPoint || p in EndPoints(ta) || p == hb.endPoint || p in EndPoints(tb)
    decreases |ta| + |tb|, 0
  {
    var ea := ha.endPoint;
    var eb := hb.endPoint;
    var d := DualInfo(ha.data.offsetInfo, ha.data.ratingInfo.Plus(hb.data));
    LaneEnd(s, hb, tb);
    NextOfLane(s, ha, ta);
    var hb' := Segment(eb, hb.data.Advanced(ea - s));
    var rest := DualAdderRest(s, ha, ta, hb, tb);
    assert DualAdderFrom(s, ha, ta, hb, tb) == [FullSegment(PointSpan(s, ea), d)] + rest;
    assert NextLanes(AdvanceDual, AdvanceRating, s, ha, ta, hb, tb) == LaneState(ea, ta[0], ta[1..], hb', tb);
    assert rest == DualAdderFrom(ea, ta[0], ta[1..], hb', tb);
    DualAdderEndPoint(ea, ta[0], ta[1..], hb', tb, p);
    ConsFullEndPoints(s, ea, d, rest);
    assert (p in EndPoints(DiscardStartTimes(DualAdderFrom(s, ha, ta, hb, tb)))) == (p == ea || p in EndPoints(DiscardStartTimes(rest)));
    EndPointsCons(ta);
    assert (p in EndPoints(ta)) == (p == ta[0].endPoint || p in EndPoints(ta[1..]));
  }

  lemma {:induction false} DualAdderEndPointB(s: int, ha: Segment<DualInfo>, ta: seq<Segment<DualInfo>>,
      hb: Segment<RatingInfo>, tb: seq<Segment<RatingInfo>>, p: int)
    requires Aligned(s, ha, ta, hb, tb) && hb.endPoint < ha.endPoint
    ensures p in EndPoints(DiscardStartTimes(DualAdderFrom(s, ha, ta, hb, tb)))
        <==> p == ha.endPoint || p in EndPoints(ta) || p == hb.endPoint || p in EndPoints(tb)
    decreases |ta| + |tb|, 0
  {
    var ea := ha.endPoint;
    var eb := hb.endPoint;
    var d := DualInfo(ha.data.offsetInfo, ha.data.ratingInfo.Plus(hb.data));
    LaneEnd(s, ha, ta);
    NextOfLane(s, hb, tb);
    var ha' := Segment(ea, ha.data.Advanced(eb - s));
    var rest := DualAdderRest(s, ha, ta, hb, tb);
    assert DualAdderFrom(s, ha, ta, hb, tb) == [FullSegment(PointSpan(s, eb), d)] + rest;
    assert NextLanes(AdvanceDual, AdvanceRating, s, ha, ta, hb, tb) == LaneState(eb, ha', ta, tb[0], tb[1..]);
    assert rest == DualAdderFrom(eb, ha', ta, tb[0], tb[1..]);
    DualAdderEndPoint(eb, ha', ta, tb[0], tb[1..], p);
    ConsFullEndPoints(s, eb, d, rest);
    assert (p in EndPoints(DiscardStartTimes(DualAdderFrom(s, ha, ta, hb, tb)))) == (p == eb || p in EndPoints(DiscardStartTimes(rest)));
    EndPointsCons(tb);
    assert (p in EndPoints(tb)) == (p == tb[0].endPoint || p in EndPoints(tb[1..]));
  }

  lemma {:induction false} DualAdderEndPointBoth(s: int, ha: Segment<DualInfo>, ta: seq<Segment<DualInfo>>,
      hb: Segment<RatingInfo>, tb: seq<Segment<RatingInfo>>, p: int)
    requires Aligned(s, ha, ta, hb, tb) && hb.endPoint == ha.endPoint
    ensures p in EndPoints(DiscardStartTimes(DualAdderFrom(s, ha, ta, hb, tb)))
        <==> p == ha.endPoint || p in EndPoints(ta) || p == hb.endPoint || p in EndPoints(tb)
    decreases |ta| + |tb|, 0
  {
    var ea := ha.endPoint;
    var d := DualInfo(ha.data.offsetInfo, ha.data.ratingInfo.Plus(hb.data));
    LaneEnd(s, ha, ta);
    LaneEnd(s, hb, tb);
    if |ta| == 0 {
      assert DualAdderRest(s, ha, ta, hb, tb) == [];
      assert DualAdderFrom(s, ha, ta, hb, tb) == [FullSegment(PointSpan(s, ea), d)];
      ConsFullEndPoints(s, ea, d, []);
      assert |tb| == 0;
    } else {
      NextOfLane(s, ha, ta);
      NextOfLane(s, hb, tb);
      var rest := DualAdderRest(s, ha, ta, hb, tb);
      assert DualAdderFrom(s, ha, ta, hb, tb) == [FullSegment(PointSpan(s, ea), d)] + rest;
      assert NextLanes(AdvanceDual, AdvanceRating, s, ha, ta, hb, tb) == LaneState(ea, ta[0], ta[1..], tb[0], tb[1..]);
      assert rest == DualAdderFrom(ea, ta[0], ta[1..], tb[0], tb[1..]);
      DualAdderEndPoint(ea, ta[0], ta[1..], tb[0], tb[1..], p);
      ConsFullEndPoints(s, ea, d, rest);
    assert (p in EndPoints(DiscardStartTimes(DualAdderFrom(s, ha, ta, hb, tb)))) == (p == ea || p in EndPoints(DiscardStartTimes(rest)));
      EndPointsCons(ta);
      EndPointsCons(tb);
    }
  }

  /** The sum has a segment end exactly at every end point of either input. */
  lemma DualAdderEndPoints(s: int, ha: Segment<DualInfo>, ta: seq<Segment<DualInfo>>,
                             hb: Segment<RatingInfo>, tb: seq<Segment<RatingInfo>>)
    requires Aligned(s, ha, ta, hb, tb)
    ensures EndPoints(DiscardStartTimes(DualAdderFrom(s, ha, ta, hb, tb)))
         == {ha.endPoint} + EndPoints(ta) + {hb.endPoint} + EndPoints(tb)
  {
    forall p ensures p in EndPoints(DiscardStartTimes(DualAdderFrom(s, ha, ta, hb, tb)))
        <==> p in {ha.endPoint} + EndPoints(ta) + {hb.endPoint} + EndPoints(tb)
    {
      DualAdderEndPoint(s, ha, ta, hb, tb, p);
    }
  }

  /** At every point of the common range the output's rating is the sum of
      the two lanes' ratings and its offset is the first lane's offset. */
  lemma {:induction false} DualAdderFromValues(s: int, ha: Segment<DualInfo>, ta: seq<Segment<DualInfo>>,
                                                 hb: Segment<RatingInfo>, tb: seq<Segment<RatingInfo>>, t: int)
    requires Aligned(s, ha, ta, hb, tb)
    requires s <= t < End(ha.endPoint, ta)
    ensures Eval(DualRating, s, DiscardStartTimes(DualAdderFrom(s, ha, ta, hb, tb)), t)
         == LaneEval(DualRating, s, ha, ta, t) + LaneEval(RatingValue, s, hb, tb, t)
    ensures Eval(DualOffset, s, DiscardStartTimes(DualAdderFrom(s, ha, ta, hb, tb)), t)
         == LaneEval(DualOffset, s, ha, ta, t)
    decreases |ta| + |tb|, 1
  {
    if ha.endPoint < hb.endPoint {
      DualAdderStepA(s, ha, ta, hb, tb, t);
    } else if hb.endPoint < ha.endPoint {
      DualAdderStepB(s, ha, ta, hb, tb, t);
    } else {
      DualAdderStepBoth(s, ha, ta, hb, tb, t);
    }
  }

  /** A `next()` that consumes the head of the first lane and advances the
      head of the second. */
  lemma {:induction false} DualAdderStepA(s: int, ha: Segment<DualInfo>, ta: seq<Segment<DualInfo>>,
                                            hb: Segment<RatingInfo>, tb: seq<Segment<RatingInfo>>, t: int)
    requires Aligned(s, ha, ta, hb, tb) && ha.endPoint < hb.endPoint
    requires s <= t < End(ha.endPoint, ta)
    ensures Eval(DualRating, s, DiscardStartTimes(DualAdderFrom(s, ha, ta, hb, tb)), t)
         == LaneEval(DualRating, s, ha, ta, t) + LaneEval(RatingValue, s, hb, tb, t)
    ensures Eval(DualOffset, s, DiscardStartTimes(DualAdderFrom(s, ha, ta, hb, tb)), t)
         == LaneEval(DualOffset, s, ha, ta, t)
    decreases |ta| + |tb|, 0
  {
    var ea := ha.endPoint;
    var eb := hb.endPoint;
    var d := DualInfo(ha.data.offsetInfo, ha.data.ratingInfo.Plus(hb.data));
    LaneEnd(s, hb, tb);
    NextOfLane(s, ha, ta);
    var hb' := Segment(eb, hb.data.Advanced(ea - s));
    var rest := DualAdderRest(s, ha, ta, hb, tb);
    assert DualAdderFrom(s, ha, ta, hb, tb) == [FullSegment(PointSpan(s, ea), d)] + rest;
    assert NextLanes(AdvanceDual, AdvanceRating, s, ha, ta, hb, tb) == LaneState(ea, ta[0], ta[1..], hb', tb);
    assert rest == DualAdderFrom(ea, ta[0], ta[1..], hb', tb);
    ConsFull(DualRating, s, ea, d, rest, t);
    ConsFull(DualOffset, s, ea, d, rest, t);
    if t >= ea {
      DualAdderFromValues(ea, ta[0], ta[1..], hb', tb, t);
      AdvanceLane(s, hb, tb, ea, t);
      AsLane(DualRating, ea, ta, t);
      AsLane(DualOffset, ea, ta, t);
      assert LaneEval(DualRating, s, ha, ta, t) == Eval(DualRating, ea, ta, t);
      assert LaneEval(DualOffset, s, ha, ta, t) == Eval(DualOffset, ea, ta, t);
    } else {
      assert DualRating(d, t - s) == DualRating(ha.data, t - s) + RatingValue(hb.data, t - s);
    }
  }

  /** The mirror image: a `next()` that consumes the head of the second
      lane and advances the head of the first. */
  lemma {:induction false} DualAdderStepB(s: int, ha: Segment<DualInfo>, ta: seq<Segment<DualInfo>>,
                                            hb: Segment<RatingInfo>, tb: seq<Segment<RatingInfo>>, t: int)
    requires Aligned(s, ha, ta, hb, tb) && hb.endPoint < ha.endPoint
    requires s <= t < End(ha.endPoint, ta)
    ensures Eval(DualRating, s, DiscardStartTimes(DualAdderFrom(s, ha, ta, hb, tb)), t)
         == LaneEval(DualRating, s, ha, ta, t) + LaneEval(RatingValue, s, hb, tb, t)
    ensures Eval(DualOffset, s, DiscardStartTimes(DualAdderFrom(s, ha, ta, hb, tb)), t)
         == LaneEval(DualOffset, s, ha, ta, t)
    decreases |ta| + |tb|, 0
  {
    var ea := ha.endPoint;
    var eb := hb.endPoint;
    var d := DualInfo(ha.data.offsetInfo, ha.data.ratingInfo.Plus(hb.data));
    LaneEnd(s, ha, ta);
    NextOfLane(s, hb, tb);
    var ha' := Segment(ea, ha.data.Advanced(eb - s));
    var rest := DualAdderRest(s, ha, ta, hb, tb);
    assert DualAdderFrom(s, ha, ta, hb, tb) == [FullSegment(PointSpan(s, eb), d)] + rest;
    assert NextLanes(AdvanceDual, AdvanceRating, s, ha, ta, hb, tb) == LaneState(eb, ha', ta, tb[0], tb[1..]);
    assert rest == DualAdderFrom(eb, ha', ta, tb[0], tb[1..]);
    ConsFull(DualRating, s, eb, d, rest, t);
    ConsFull(DualOffset, s, eb, d, rest, t);
    if t >= eb {
      DualAdderFromValues(eb, ha', ta, tb[0], tb[1..], t);
      DualAdvanceLane(s, ha, ta, eb, t);
      AsLane(RatingValue, eb, tb, t);
      assert LaneEval(RatingValue, s, hb, tb, t) == Eval(RatingValue, eb, tb, t);
    } else {
      assert DualRating(d, t - s) == DualRating(ha.data, t - s) + RatingValue(hb.data, t - s);
    }
  }

  /** A `next()` at a common end point consumes both heads, or ends the
      sum when both lanes are exhausted. */
  lemma {:induction false} DualAdderStepBoth(s: int, ha: Segment<DualInfo>, ta: seq<Segment<DualInfo>>,
                                               hb: Segment<RatingInfo>, tb: seq<Segment<RatingInfo>>, t: int)
    requires Aligned(s, ha, ta, hb, tb) && hb.endPoint == ha.endPoint
    requires s <= t < End(ha.endPoint, ta)
    ensures Eval(DualRating, s, DiscardStartTimes(DualAdderFrom(s, ha, ta, hb, tb)), t)
         == LaneEval(DualRating, s, ha, ta, t) + LaneEval(RatingValue, s, hb, tb, t)
    ensures Eval(DualOffset, s, DiscardStartTimes(DualAdderFrom(s, ha, ta, hb, tb)), t)
         == LaneEval(DualOffset, s, ha, ta, t)
    decreases |ta| + |tb|, 0
  {
    var ea := ha.endPoint;
    LaneEnd(s, ha, ta);
    if |ta| == 0 {
      DualAdderLast(s, ha, ta, hb, tb, t);
    } else {
      DualAdderBothUnfold(s, ha, ta, hb, tb, t);
      if t >= ea {
        DualAdderFromValues(ea, ta[0], ta[1..], tb[0], tb[1..], t);
        AsLane(DualRating, ea, ta, t);
        AsLane(DualOffset, ea, ta, t);
        AsLane(RatingValue, ea, tb, t);
      }
    }
  }

  /** The last piece of the dual sum keeps the last offset and adds the two
      last ratings. */
  lemma DualAdderLast(s: int, ha: Segment<DualInfo>, ta: seq<Segment<DualInfo>>,
                      hb: Segment<RatingInfo>, tb: seq<Segment<RatingInfo>>, t: int)
    requires Aligned(s, ha, ta, hb, tb) && hb.endPoint == ha.endPoint && |ta| == 0
    requires s <= t < ha.endPoint
    ensures Eval(DualRating, s, DiscardStartTimes(DualAdderFrom(s, ha, ta, hb, tb)), t)
         == LaneEval(DualRating, s, ha, ta, t) + LaneEval(RatingValue, s, hb, tb, t)
    ensures Eval(DualOffset, s, DiscardStartTimes(DualAdderFrom(s, ha, ta, hb, tb)), t)
         == LaneEval(DualOffset, s, ha, ta, t)
  {
    var ea := ha.endPoint;
    var d := DualInfo(ha.data.offsetInfo, ha.data.ratingInfo.Plus(hb.data));
    LaneEnd(s, hb, tb);
    assert DualAdderRest(s, ha, ta, hb, tb) == [];
    assert DualAdderFrom(s, ha, ta, hb, tb) == [FullSegment(PointSpan(s, ea), d)];
    ConsFull(DualRating, s, ea, d, [], t);
    ConsFull(DualOffset, s, ea, d, [], t);
  }

  /** At a common end point before the last piece, the dual sum is the sum
      of the heads up to that point and the sum of both tails after it. */
  lemma DualAdderBothUnfold(s: int, ha: Segment<DualInfo>, ta: seq<Segment<DualInfo>>,
                            hb: Segment<RatingInfo>, tb: seq<Segment<RatingInfo>>, t: int)
    requires Aligned(s, ha, ta, hb, tb) && hb.endPoint == ha.endPoint && |ta| > 0
    requires s <= t < End(ha.endPoint, ta)
    ensures |tb| > 0 && Aligned(ha.endPoint, ta[0], ta[1..], tb[0], tb[1..])
    ensures t < ha.endPoint ==>
      Eval(DualRating, s, DiscardStartTimes(DualAdderFrom(s, ha, ta, hb, tb)), t)
      == DualRating(ha.data, t - s) + RatingValue(hb.data, t - s)
      && Eval(DualOffset, s, DiscardStartTimes(DualAdderFrom(s, ha, ta, hb, tb)), t) == DualOffset(ha.data, t - s)
    ensures ha.endPoint <= t ==>
      Eval(DualRating, s, DiscardStartTimes(DualAdderFrom(s, ha, ta, hb, tb)), t)
      == Eval(DualRating, ha.endPoint, DiscardStartTimes(DualAdderFrom(ha.endPoint, ta[0], ta[1..], tb[0], tb[1..])), t)
      && Eval(DualOffset, s, DiscardStartTimes(DualAdderFrom(s, ha, ta, hb, tb)), t)
      == Eval(DualOffset, ha.endPoint, DiscardStartTimes(DualAdderFrom(ha.endPoint, ta[0], ta[1..], tb[0], tb[1..])), t)
  {
    var ea := ha.endPoint;
    var d := DualInfo(ha.data.offsetInfo, ha.data.ratingInfo.Plus(hb.data));
    LaneEnd(s, ha, ta);
    LaneEnd(s, hb, tb);
    NextOfLane(s, ha, ta);
    NextOfLane(s, hb, tb);
    var rest := DualAdderRest(s, ha, ta, hb, tb);
    assert DualAdderFrom(s, ha, ta, hb, tb) == [FullSegment(PointSpan(s, ea), d)] + rest;
    assert NextLanes(AdvanceDual, AdvanceRating, s, ha, ta, hb, tb) == LaneState(ea, ta[0], ta[1..], tb[0], tb[1..]);
    assert rest == DualAdderFrom(ea, ta[0], ta[1..], tb[0], tb[1..]);
    ConsFull(DualRating, s, ea, d, rest, t);
    ConsFull(DualOffset, s, ea, d, rest, t);
  }

  /** `RatingAdderIterator` started on two whole rating sequences. The
      source's `add_rating_iterators`, which would build it, is commented
      out, so no live code constructs this iterator; only
      `RatingAdderIterator2`, through `add_ratings_from`, is reachable. */
  function AddRatingIterators(start: int, a: seq<Segment<RatingInfo>>, b: seq<Segment<RatingInfo>>): (r: seq<FullSegment<RatingInfo>>)
    requires SameRange(start, a, b)
    ensures Tiles(start, r) && FullEnd(start, r) == End(start, a)
  {
    AsLane(RatingValue, start, a, start);
    AsLane(RatingValue, start, b, start);
    RatingAdderFrom(start, a[0], a[1..], b[0], b[1..])
  }

  /** The sum of two rating sequences ends a segment exactly at the end
      points of either input, and its rating is the pointwise sum. */
  lemma AddRatingIteratorsSums(start: int, a: seq<Segment<RatingInfo>>, b: seq<Segment<RatingInfo>>, t: int)
    requires SameRange(start, a, b)
    ensures EndPoints(DiscardStartTimes(AddRatingIterators(start, a, b))) == EndPoints(a) + EndPoints(b)
    ensures start <= t < End(start, a) ==>
      Eval(RatingValue, start, DiscardStartTimes(AddRatingIterators(start, a, b)), t)
      == Eval(RatingValue, start, a, t) + Eval(RatingValue, start, b, t)
  {
    AsLane(RatingValue, start, a, t);
    AsLane(RatingValue, start, b, t);
    RatingAdderEndPoints(start, a[0], a[1..], b[0], b[1..]);
    EndPointsCons(a);
    EndPointsCons(b);
    if start <= t < End(start, a) {
      RatingAdderFromValues(start, a[0], a[1..], b[0], b[1..], t);
    }
  }

  /** `DualIterator::add_ratings_from`: adds a rating sequence to the ratings
      of a dual sequence, keeping the dual sequence's offsets. */
  function AddRatingsFrom(start: int, a: seq<Segment<DualInfo>>, b: seq<Segment<RatingInfo>>): (r: seq<FullSegment<DualInfo>>)
    requires SameRange(start, a, b)
    ensures Tiles(start, r) && FullEnd(start, r) == End(start, a)
  {
    AsLane(DualRating, start, a, start);
    AsLane(RatingValue, start, b, start);
    DualAdderFrom(start, a[0], a[1..], b[0], b[1..])
  }

  /** The result of `add_ratings_from` breaks exactly at the end points of
      either input; its rating is the pointwise sum and its offset is the
      first input's offset. */
  lemma AddRatingsFromSums(start: int, a: seq<Segment<DualInfo>>, b: seq<Segment<RatingInfo>>, t: int)
    requires SameRange(start, a, b)
    ensures EndPoints(DiscardStartTimes(AddRatingsFrom(start, a, b))) == EndPoints(a) + EndPoints(b)
    ensures start <= t < End(start, a) ==>
      Eval(DualRating, start, DiscardStartTimes(AddRatingsFrom(start, a, b)), t)
      == Eval(DualRating, start, a, t) + Eval(RatingValue, start, b, t)
    ensures start <= t < End(start, a) ==>
      Eval(DualOffset, start, DiscardStartTimes(AddRatingsFrom(start, a, b)), t) == Eval(DualOffset, start, a, t)
  {
    AsLane(DualRating, start, a, t);
    AsLane(DualOffset, start, a, t);
    AsLane(RatingValue, start, b, t);
    DualAdderEndPoints(start, a[0], a[1..], b[0], b[1..]);
    EndPointsCons(a);
    EndPointsCons(b);
    if start <= t < End(start, a) {
      DualAdderFromValues(start, a[0], a[1..], b[0], b[1..], t);
    }
  }
}
