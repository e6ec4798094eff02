/** The state of the source's binary segment iterators (`RatingAdderIterator`,
    `RatingAdderIterator2`, `CombinedMaximumDualIterator`): for each input,
    its current (possibly advanced) head segment starting at the common
    segment start `s`, and the segments still to come. */
module Lanes {
  import opened SegmentData
  import opened SegmentSeq

  /** One input of a binary operation: a head segment starting at `s`, then `tail`. */
  predicate Lane<D>(s: int, head: Segment<D>, tail: seq<Segment<D>>) {
    s < head.endPoint && Increasing(head.endPoint, tail)
  }

  /** The value of a lane at `t`. */
  function LaneEval<D>(val: (D, int) -> int, s: int, head: Segment<D>, tail: seq<Segment<D>>, t: int): int
    requires Lane(s, head, tail)
    requires s <= t < End(head.endPoint, tail)
  {
    if t < head.endPoint then val(head.data, t - s) else Eval(val, head.endPoint, tail, t)
  }

  /** A sequence read as a lane: its first segment and the rest. */
  lemma AsLane<D>(val: (D, int) -> int, s: int, segs: seq<Segment<D>>, t: int)
    requires |segs| > 0 && Increasing(s, segs)
    ensures Lane(s, segs[0], segs[1..])
    ensures End(segs[0].endPoint, segs[1..]) == End(s, segs)
    ensures s <= t < End(s, segs) ==> LaneEval(val, s, segs[0], segs[1..], t) == Eval(val, s, segs, t)
  {
  }

  /** When the iterator does not panic: the two lanes end at the same point.
      The source panics ("ended before") when one input runs out first,
      and `PointSpan::new` panics on an empty span, which the lanes'
      increasing end points rule out. */
  predicate Aligned<D, E>(s: int, ha: Segment<D>, ta: seq<Segment<D>>, hb: Segment<E>, tb: seq<Segment<E>>) {
    Lane(s, ha, ta) && Lane(s, hb, tb) && End(ha.endPoint, ta) == End(hb.endPoint, tb)
  }

  /** The state of a binary segment iterator between two calls of `next()`:
      the common segment start and the two lanes. */
  datatype LaneState<D, E> = LaneState(s: int, ha: Segment<D>, ta: seq<Segment<D>>,
                                       hb: Segment<E>, tb: seq<Segment<E>>)

  /** The end of the common piece of two heads: the nearer end point. */
  function PieceEnd<D, E>(ha: Segment<D>, hb: Segment<E>): int {
    if ha.endPoint <= hb.endPoint then ha.endPoint else hb.endPoint
  }

  /** Both inputs are exhausted after the current piece. */
  predicate LastPiece<D, E>(ha: Segment<D>, ta: seq<Segment<D>>, hb: Segment<E>) {
    ha.endPoint == hb.endPoint && |ta| == 0
  }

  /** The state after one `next()` of a two-lane iterator that does not
      finish: the head that ends first is replaced by its successor and the
      other head is advanced (`advA`, `advB`) to the piece end; at a common
      end point both heads are replaced. The new state starts at the piece
      end, covers the rest of the common range and holds fewer segments. */
  function NextLanes<D, E>(advA: (D, int) -> D, advB: (E, int) -> E,
                           s: int, ha: Segment<D>, ta: seq<Segment<D>>, hb: Segment<E>, tb: seq<Segment<E>>): (n: LaneState<D, E>)
    requires Aligned(s, ha, ta, hb, tb) && !LastPiece(ha, ta, hb)
    ensures Aligned(n.s, n.ha, n.ta, n.hb, n.tb)
    ensures n.s == PieceEnd(ha, hb) && End(n.ha.endPoint, n.ta) == End(ha.endPoint, ta)
    ensures |n.ta| + |n.tb| < |ta| + |tb|
  {
    var ea := ha.endPoint;
    var eb := hb.endPoint;
    LaneEnd(s, ha, ta);
    LaneEnd(s, hb, tb);
    if ea < eb then
      NextOfLane(s, ha, ta);
      LaneState(ea, ta[0], ta[1..], Segment(eb, advB(hb.data, ea - s)), tb)
    else if eb < ea then
      NextOfLane(s, hb, tb);
      LaneState(eb, Segment(ea, advA(ha.data, eb - s)), ta, tb[0], tb[1..])
    else
      NextOfLane(s, ha, ta);
      NextOfLane(s, hb, tb);
      LaneState(ea, ta[0], ta[1..], tb[0], tb[1..])
  }

  /** A lane whose head is consumed continues with its next segment. */
  lemma NextOfLane<D>(s: int, head: Segment<D>, tail: seq<Segment<D>>)
    requires Lane(s, head, tail) && |tail| > 0
    ensures Lane(head.endPoint, tail[0], tail[1..])
    ensures End(tail[0].endPoint, tail[1..]) == End(head.endPoint, tail)
    ensures head.endPoint < End(head.endPoint, tail)
  {
    FirstBound(head.endPoint, tail);
  }

  /** A lane ends no earlier than its head. */
  lemma LaneEnd<D>(s: int, head: Segment<D>, tail: seq<Segment<D>>)
    requires Lane(s, head, tail)
    ensures head.endPoint <= End(head.endPoint, tail)
    ensures |tail| > 0 ==> head.endPoint < End(head.endPoint, tail)
  {
    IncreasingBounds(head.endPoint, tail);
    if |tail| > 0 {
      FirstBound(head.endPoint, tail);
    }
  }

  /** `advance` on a lane's rating head: re-basing it at `s2` keeps the
      lane's function from `s2` on. */
  lemma AdvanceLane(s: int, head: Segment<RatingInfo>, tail: seq<Segment<RatingInfo>>, s2: int, t: int)
    requires Lane(s, head, tail) && s <= s2 < head.endPoint
    requires s2 <= t < End(head.endPoint, tail)
    ensures Lane(s2, Segment(head.endPoint, head.data.Advanced(s2 - s)), tail)
    ensures LaneEval(RatingValue, s2, Segment(head.endPoint, head.data.Advanced(s2 - s)), tail, t)
         == LaneEval(RatingValue, s, head, tail, t)
  {
    if t < head.endPoint {
      assert head.data.Advanced(s2 - s).GetAt(t - s2) == head.data.GetAt((s2 - s) + (t - s2));
    }
  }

  /** `advance` on a lane's dual head: re-basing it at `s2` keeps both the
      rating and the offset of the lane from `s2` on. */
  lemma DualAdvanceLane(s: int, head: Segment<DualInfo>, tail: seq<Segment<DualInfo>>, s2: int, t: int)
    requires Lane(s, head, tail) && s <= s2 < head.endPoint
    requires s2 <= t < End(head.endPoint, tail)
    ensures Lane(s2, Segment(head.endPoint, head.data.Advanced(s2 - s)), tail)
    ensures LaneEval(DualRating, s2, Segment(head.endPoint, head.data.Advanced(s2 - s)), tail, t)
         == LaneEval(DualRating, s, head, tail, t)
    ensures LaneEval(DualOffset, s2, Segment(head.endPoint, head.data.Advanced(s2 - s)), tail, t)
         == LaneEval(DualOffset, s, head, tail, t)
  {
    if t < head.endPoint {
      var adv := head.data.Advanced(s2 - s);
      assert adv.ratingInfo == head.data.ratingInfo.Advanced(s2 - s);
      assert adv.offsetInfo == head.data.offsetInfo.Advanced(s2 - s);
      assert adv.ratingInfo.GetAt(t - s2) == head.data.ratingInfo.GetAt((s2 - s) + (t - s2));
      assert adv.offsetInfo.AdvancedOffset(t - s2) == head.data.offsetInfo.AdvancedOffset((s2 - s) + (t - s2));
    }
  }

  /** Two inputs of a binary operation as whole sequences: the same start (asserted by
      the source), at least one segment each (the `expect`s), and the same
      end (otherwise the iterator panics when one input runs out first). */
  predicate SameRange<D, E>(start: int, a: seq<Segment<D>>, b: seq<Segment<E>>) {
    |a| > 0 && |b| > 0 && Increasing(start, a) && Increasing(start, b) && End(start, a) == End(start, b)
  }
}
