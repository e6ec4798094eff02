/** The push iterators of segments.rs: a consumer that is fed items one at a
    time (`push`) and produces its output at the end (`finish`). A push
    iterator is modelled by its state, its step function and its finishing
    function; `into_push_iter` feeds a whole sequence. The combinators
    (`map_push_iterator`, `dual_push_iter`, `collect_to_vec_push_iter`,
    `discard_start_times_push_iter`, the projections and the simplifying
    stage) are proved to act on the fed sequence as the corresponding
    sequence functions. */
module PushIter {
  import opened Wrappers
  import opened SegmentData
  import opened SegmentSeq
  import opened SegmentOps
  import opened Simplify

  /** The `PushIterator` trait: state `S`, items `T`, output `O`. */
  datatype Push<!S, -T, O> = Push(state: S, step: (S, T) -> S, finish: S -> O)

  /** The state after pushing every item of `xs`, in order. */
  function Feed<S, T>(step: (S, T) -> S, s: S, xs: seq<T>): S
    decreases |xs|
  {
    if |xs| == 0 then s else Feed(step, step(s, xs[0]), xs[1..])
  }

  /** `into_push_iter`: push every item, then finish. */
  function IntoPushIter<S, T, O>(xs: seq<T>, it: Push<S, T, O>): O {
    it.finish(Feed(it.step, it.state, xs))
  }

  /** Feeding a concatenation feeds the parts one after the other. */
  lemma {:induction false} FeedAppend<S, T>(step: (S, T) -> S, s: S, xs: seq<T>, ys: seq<T>)
    ensures Feed(step, s, xs + ys) == Feed(step, Feed(step, s, xs), ys)
    decreases |xs|
  {
    if |xs| > 0 {
      assert (xs + ys)[0] == xs[0];
      assert (xs + ys)[1..] == xs[1..] + ys;
      FeedAppend(step, step(s, xs[0]), xs[1..], ys);
    } else {
      assert xs + ys == ys;
    }
  }

  /** `f` applied to every item. */
  function MapSeq<A, B>(f: A -> B, xs: seq<A>): (r: seq<B>)
    ensures |r| == |xs|
    ensures forall i :: 0 <= i < |xs| ==> r[i] == f(xs[i])
    decreases |xs|
  {
    if |xs| == 0 then [] else [f(xs[0])] + MapSeq(f, xs[1..])
  }

  /** `collect_to_vec_push_iter`: appends every item to a vector. */
  function CollectToVec<T>(): Push<seq<T>, T, seq<T>> {
    Push([], (v: seq<T>, x: T) => v + [x], (v: seq<T>) => v)
  }

  /** `map_push_iterator`: every item is mapped by `f` before being pushed on. */
  function MapPush<S, A, B, O>(it: Push<S, B, O>, f: A -> B): Push<S, A, O> {
    Push(it.state, (s: S, a: A) => it.step(s, f(a)), it.finish)
  }

  /** `dual_push_iter`: every item is pushed into both iterators; the output
      is the pair of their outputs. */
  function DualPush<S1, S2, T, O1, O2>(i1: Push<S1, T, O1>, i2: Push<S2, T, O2>): Push<(S1, S2), T, (O1, O2)> {
    Push((i1.state, i2.state),
         (s: (S1, S2), x: T) => (i1.step(s.0, x), i2.step(s.1, x)),
         (s: (S1, S2)) => (i1.finish(s.0), i2.finish(s.1)))
  }

  function DiscardStartTime<D>(f: FullSegment<D>): Segment<D> {
    Segment(f.span.end, f.data)
  }

  function AsRatingSegment(d: Segment<DualInfo>): Segment<RatingInfo> {
    Segment(d.endPoint, d.data.ratingInfo)
  }

  function AsOffsetSegment(d: Segment<DualInfo>): Segment<OffsetInfo> {
    Segment(d.endPoint, d.data.offsetInfo)
  }

  /** `discard_start_times_push_iter`. */
  function DiscardStartTimesPush<S, D, O>(it: Push<S, Segment<D>, O>): Push<S, FullSegment<D>, O> {
    MapPush(it, DiscardStartTime)
  }

  /** `only_ratings_push_iter`. */
  function OnlyRatingsPush<S, O>(it: Push<S, Segment<RatingInfo>, O>): Push<S, Segment<DualInfo>, O> {
    MapPush(it, AsRatingSegment)
  }

  /** `only_offsets_push_iter`. */
  function OnlyOffsetsPush<S, O>(it: Push<S, Segment<OffsetInfo>, O>): Push<S, Segment<DualInfo>, O> {
    MapPush(it, AsOffsetSegment)
  }

  /** One `push` of the simplifying stage: the first segment opens the run
      at `start`; a mergeable segment extends the run's end; any other
      segment pushes the run on and opens the next run at its end. */
  function SimplifyStep<D, S>(merge: (FullSegment<D>, D) -> bool, start: int, step: (S, FullSegment<D>) -> S,
                              st: (Option<FullSegment<D>>, S), next: Segment<D>): (Option<FullSegment<D>>, S)
  {
    match st.0
    case None => (Some(FullSegment(PointSpan(start, next.endPoint), next.data)), st.1)
    case Some(cur) =>
      if merge(cur, next.data) then (Some(FullSegment(PointSpan(cur.span.start, next.endPoint), cur.data)), st.1)
      else (Some(FullSegment(PointSpan(cur.span.end, next.endPoint), next.data)), step(st.1, cur))
  }

  /** `finish` of the simplifying stage: push the open run, if any, then
      finish the inner iterator. */
  function SimplifyFinish<D, S, O>(it: Push<S, FullSegment<D>, O>, st: (Option<FullSegment<D>>, S)): O {
    match st.0
    case None => it.finish(st.1)
    case Some(cur) => it.finish(it.step(st.1, cur))
  }

  /** `simplifiy_ratings_push_iter` / `simplifiy_offsets_push_iter` with the
      given merge condition. */
  function SimplifyPush<D, S, O>(merge: (FullSegment<D>, D) -> bool, start: int, it: Push<S, FullSegment<D>, O>)
    : Push<(Option<FullSegment<D>>, S), Segment<D>, O>
  {
    Push((None, it.state),
         (st: (Option<FullSegment<D>>, S), x: Segment<D>) => SimplifyStep(merge, start, it.step, st, x),
         (st: (Option<FullSegment<D>>, S)) => SimplifyFinish(it, st))
  }

  /** The collecting iterator outputs exactly what was pushed. */
  lemma {:induction false} CollectFeed<T>(v: seq<T>, xs: seq<T>)
    ensures Feed(CollectToVec<T>().step, v, xs) == v + xs
    decreases |xs|
  {
    if |xs| > 0 {
      CollectFeed(v + [xs[0]], xs[1..]);
      assert v + [xs[0]] + xs[1..] == v + xs;
    }
  }

  lemma IntoCollect<T>(xs: seq<T>)
    ensures IntoPushIter(xs, CollectToVec<T>()) == xs
  {
    CollectFeed([], xs);
  }

  /** Feeding through a map feeds the mapped sequence. */
  lemma {:induction false} MapFeed<S, A, B, O>(it: Push<S, B, O>, f: A -> B, s: S, xs: seq<A>)
    ensures Feed(MapPush(it, f).step, s, xs) == Feed(it.step, s, MapSeq(f, xs))
    decreases |xs|
  {
    if |xs| > 0 {
      MapFeed(it, f, it.step(s, f(xs[0])), xs[1..]);
      assert MapSeq(f, xs)[1..] == MapSeq(f, xs[1..]);
    }
  }

  lemma IntoMap<S, A, B, O>(xs: seq<A>, it: Push<S, B, O>, f: A -> B)
    ensures IntoPushIter(xs, MapPush(it, f)) == IntoPushIter(MapSeq(f, xs), it)
  {
    MapFeed(it, f, it.state, xs);
  }

  /** Feeding a dual iterator feeds both halves with the same items. */
  lemma {:induction false} DualFeed<S1, S2, T, O1, O2>(i1: Push<S1, T, O1>, i2: Push<S2, T, O2>, s: (S1, S2), xs: seq<T>)
    ensures Feed(DualPush(i1, i2).step, s, xs) == (Feed(i1.step, s.0, xs), Feed(i2.step, s.1, xs))
    decreases |xs|
  {
    if |xs| > 0 {
      DualFeed(i1, i2, (i1.step(s.0, xs[0]), i2.step(s.1, xs[0])), xs[1..]);
    }
  }

  lemma IntoDual<S1, S2, T, O1, O2>(xs: seq<T>, i1: Push<S1, T, O1>, i2: Push<S2, T, O2>)
    ensures IntoPushIter(xs, DualPush(i1, i2)) == (IntoPushIter(xs, i1), IntoPushIter(xs, i2))
  {
    DualFeed(i1, i2, (i1.state, i2.state), xs);
  }

  /** With an open run `cur`, the simplifying stage has pushed every run of
      `SimplifyFrom` but the last one, which is still open. */
  lemma {:induction false} SimplifyFeed<D, S, O>(merge: (FullSegment<D>, D) -> bool, start: int, it: Push<S, FullSegment<D>, O>,
                                                 cur: FullSegment<D>, s: S, xs: seq<Segment<D>>)
    ensures var out := SimplifyFrom(merge, cur, xs);
      Feed(SimplifyPush(merge, start, it).step, (Some(cur), s), xs)
      == (Some(out[|out| - 1]), Feed(it.step, s, out[..|out| - 1]))
    decreases |xs|
  {
    var out := SimplifyFrom(merge, cur, xs);
    if |xs| > 0 {
      var n := xs[0];
      if merge(cur, n.data) {
        SimplifyFeed(merge, start, it, FullSegment(PointSpan(cur.span.start, n.endPoint), cur.data), s, xs[1..]);
      } else {
        var next := FullSegment(PointSpan(cur.span.end, n.endPoint), n.data);
        var rest := SimplifyFrom(merge, next, xs[1..]);
        assert out == [cur] + rest;
        SimplifyFeed(merge, start, it, next, it.step(s, cur), xs[1..]);
        assert out[..|out| - 1] == [cur] + rest[..|rest| - 1];
        assert ([cur] + rest[..|rest| - 1])[1..] == rest[..|rest| - 1];
      }
    }
  }

  /** The simplifying push iterator pushes exactly the runs of the
      run-merging function, in order. */
  lemma IntoSimplify<D, S, O>(xs: seq<Segment<D>>, merge: (FullSegment<D>, D) -> bool, start: int, it: Push<S, FullSegment<D>, O>)
    ensures IntoPushIter(xs, SimplifyPush(merge, start, it)) == IntoPushIter(SimplifySegments(merge, start, xs), it)
  {
    if |xs| > 0 {
      var cur := FullSegment(PointSpan(start, xs[0].endPoint), xs[0].data);
      var out := SimplifyFrom(merge, cur, xs[1..]);
      SimplifyFeed(merge, start, it, cur, it.state, xs[1..]);
      FeedAppend(it.step, it.state, out[..|out| - 1], [out[|out| - 1]]);
      assert out[..|out| - 1] + [out[|out| - 1]] == out;
    }
  }

  lemma DiscardIsMap<D>(fs: seq<FullSegment<D>>)
    ensures MapSeq(DiscardStartTime, fs) == DiscardStartTimes(fs)
  {
  }

  /** `RatingIterator::save_simplified`: the buffer collected from the
      simplifying stage. */
  function SaveSimplified(start: int, segs: seq<Segment<RatingInfo>>): seq<Segment<RatingInfo>> {
    IntoPushIter(segs, SimplifyPush(RatingsMerge, start, DiscardStartTimesPush(CollectToVec())))
  }

  /** `save_simplified` stores the simplified ratings: an increasing buffer
      with the same end and no more segments, equal to the input at every
      point. */
  lemma SaveSimplifiedCorrect(start: int, segs: seq<Segment<RatingInfo>>, t: int)
    requires Increasing(start, segs)
    requires start <= t < End(start, segs)
    ensures SaveSimplified(start, segs) == DiscardStartTimes(SimplifyRatings(start, segs))
    ensures Increasing(start, SaveSimplified(start, segs))
    ensures End(start, SaveSimplified(start, segs)) == End(start, segs)
    ensures |SaveSimplified(start, segs)| <= |segs|
    ensures Eval(RatingValue, start, SaveSimplified(start, segs), t) == Eval(RatingValue, start, segs, t)
  {
    var inner := DiscardStartTimesPush(CollectToVec<Segment<RatingInfo>>());
    var out := SimplifyRatings(start, segs);
    IntoSimplify(segs, RatingsMerge, start, inner);
    IntoMap(out, CollectToVec<Segment<RatingInfo>>(), DiscardStartTime);
    IntoCollect(MapSeq(DiscardStartTime, out));
    DiscardIsMap(out);
    SimplifyRatingsCorrect(start, segs, t);
    TilesIncreasing(start, out);
  }

  /** The offset half of `DualIterator::save_separate`, and its rating half
      with the aggressive simplification stage `aggressive` (a push
      iterator of rating segments collecting its own output) left
      abstract. */
  function SaveSeparate<S>(start: int, segs: seq<Segment<DualInfo>>, aggressive: Push<S, Segment<RatingInfo>, seq<Segment<RatingInfo>>>)
    : (seq<Segment<RatingInfo>>, seq<Segment<OffsetInfo>>)
  {
    IntoPushIter(segs,
      DualPush(OnlyRatingsPush(SimplifyPush(RatingsMerge, start, DiscardStartTimesPush(aggressive))),
               OnlyOffsetsPush(SimplifyPush(OffsetsMerge, start, DiscardStartTimesPush(CollectToVec())))))
  }

  lemma OnlyRatingsIsMap(segs: seq<Segment<DualInfo>>)
    ensures MapSeq(AsRatingSegment, segs) == OnlyRatings(segs)
  {
  }

  lemma OnlyOffsetsIsMap(segs: seq<Segment<DualInfo>>)
    ensures MapSeq(AsOffsetSegment, segs) == OnlyOffsets(segs)
  {
  }

  /** `save_separate` stores the losslessly simplified offsets, and feeds
      the losslessly simplified ratings to the aggressive stage. */
  lemma SaveSeparateCorrect<S>(start: int, segs: seq<Segment<DualInfo>>, aggressive: Push<S, Segment<RatingInfo>, seq<Segment<RatingInfo>>>)
    ensures SaveSeparate(start, segs, aggressive).1 == DiscardStartTimes(SimplifyOffsets(start, OnlyOffsets(segs)))
    ensures SaveSeparate(start, segs, aggressive).0
         == IntoPushIter(DiscardStartTimes(SimplifyRatings(start, OnlyRatings(segs))), aggressive)
  {
    var ratingsStage := SimplifyPush(RatingsMerge, start, DiscardStartTimesPush(aggressive));
    var offsetsInner := DiscardStartTimesPush(CollectToVec<Segment<OffsetInfo>>());
    var offsetsStage := SimplifyPush(OffsetsMerge, start, offsetsInner);
    IntoDual(segs, OnlyRatingsPush(ratingsStage), OnlyOffsetsPush(offsetsStage));

    IntoMap(segs, ratingsStage, AsRatingSegment);
    OnlyRatingsIsMap(segs);
    var rs := SimplifyRatings(start, OnlyRatings(segs));
    IntoSimplify(OnlyRatings(segs), RatingsMerge, start, DiscardStartTimesPush(aggressive));
    IntoMap(rs, aggressive, DiscardStartTime);
    DiscardIsMap(rs);

    IntoMap(segs, offsetsStage, AsOffsetSegment);
    OnlyOffsetsIsMap(segs);
    var os := SimplifyOffsets(start, OnlyOffsets(segs));
    IntoSimplify(OnlyOffsets(segs), OffsetsMerge, start, offsetsInner);
    IntoMap(os, CollectToVec<Segment<OffsetInfo>>(), DiscardStartTime);
    IntoCollect(MapSeq(DiscardStartTime, os));
    DiscardIsMap(os);
  }
}
