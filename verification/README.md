# ilass segment algebra and audio front end, in Dafny

ilass aligns subtitles to a video. Its core represents every time-dependent
score as a piecewise-linear function over integer time. Such a function is a
start point followed by segments `Segment { end_point, data }` whose end points
strictly increase. A segment's data is one of three kinds:

- a `RatingInfo`: a linear rating `rating + delta * (t - s)` on `[s, e)`;
- an `OffsetInfo`: an offset that is constant, or grows by one per point when
  `drag` is set;
- a `DualInfo`: both of the above.

The model covers four parts of ilass.

- **The segment algebra of `ilass-core/src/segments.rs`.** This covers:
  - building a rating function from its second differences;
  - annotating, shifting, appending, extending, clamping and raising segment
    sequences;
  - adding two functions pointwise;
  - their pointwise maximum with offsets;
  - the running left-to-right maximum;
  - merging collinear neighbours;
  - offset lookup;
  - the push-iterator pipeline that stores a dual function as separate
    rating and offset buffers.
- **`ChunkedAudioReceiver` from `ilass-cli/src/video_decoder.rs`.** It cuts a
  stream of `i16` samples into fixed-size chunks for the next receiver.
- **The pure parts of `ilass-cli/src/video_decoder/ffmpeg_binary.rs`.** These are:
  - reading codec types;
  - rendering command lines and exit codes;
  - choosing the audio stream;
  - the duration fallback;
  - the byte-pair sample parser;
  - the progress prescaler;
  - the end-of-stream handling.

Time points, ratings, deltas and offsets are unbounded integers. A
function is given meaning by `SegmentSeq.Eval(val, start, segs, t)`, the value
at point `t`, generic over a value function: `RatingValue`, `OffsetValue`,
`DualRating`, `DualOffset` or `DualValue`. Outputs made of full segments (with
explicit spans) are read through `Tiles` (the spans are non-empty and
contiguous from `start`) and `DiscardStartTimes`. Every lazy iterator becomes a
function from sequences to sequences that follows its `next()` step by step.
Every push iterator is a value of the fold datatype `PushIter.Push`. The source's
`assert!` and `expect` conditions on segment sequences become preconditions,
except in `annotate_with_segment_start_points`, where the panic is the `None` of
an `Option`. A receiver's or a process's error is a `Result`.

Modules: `Wrappers` (Option, Result), `Arith`, `SegmentData`, `SegmentSeq`,
`SegmentOps`, `Differential`, `Buffers`, `Lanes`, `Adder`, `CombinedMaximum`,
`LeftToRight`, `Simplify`, `PushIter`, `ChunkedAudio`, `FFmpegMetadata`,
`FFmpegRender`, `FFmpegSamples`.

## Model

| member | source | states |
|---|---|---|
| SegmentData.DualAdvancedValue | ilass-core/src/segments.rs:156-164 | advancing a dual segment by `len` gives, at every `x`, the rating and offset the original has at `len + x` |
| SegmentData.LinearBetweenEnds | ilass-core/src/segments.rs:125-148 | a linear rating never exceeds the larger of its values at the two ends of a span, which is why the maximum iterators only compare end ratings |
| SegmentSeq.DiscardStartTimes | ilass-core/src/segments.rs:487-496 | keeps every segment's end point and data and drops only its start, in order |
| SegmentSeq.Annotate | ilass-core/src/segments.rs:412-438 | succeeds exactly when the end points strictly increase from `start` (otherwise the source panics); the result tiles `[start, last end)` contiguously and discarding its start times gives the input back |
| SegmentSeq.AnnotateDiscardRoundTrip | ilass-core/src/segments.rs:345-368 | annotating the discarded form of a tiling gives back the same full segments: `with_start_point` and `discard_start_time` are inverse on tilings |
| SegmentSeq.TilesIncreasing | ilass-core/src/segments.rs:487-496 | discarding the start times of a tiling leaves strictly increasing end points |
| SegmentSeq.EvalIsLookup | ilass-core/src/segments.rs:338-341 | the value at `t` is the data of the segment containing `t`, evaluated `t - segment start` points into it |
| SegmentSeq.EvalTiling | ilass-core/src/segments.rs:356-378 | on a tiling, the value at any point of the `k`-th span is that span's data evaluated from the span's start |
| SegmentSeq.TilesStarts | ilass-core/src/segments.rs:412-438 | in a tiling the first span starts at `start`, every span is non-empty and each starts where the previous one ended |
| SegmentSeq.EvalAppendTiling | ilass-core/src/segments.rs:356-378 | concatenating two adjacent tilings tiles their union, and the value at `t` comes from whichever part contains `t` |
| SegmentSeq.Shift | ilass-core/src/segments.rs:446-457 | every end point moves by `dt`, data and order unchanged |
| SegmentSeq.ShiftTranslates | ilass-core/src/segments.rs:446-457 | the shifted function at `t + dt` equals the original at `t`, and its end moves by `dt` |
| SegmentSeq.ShiftIncreasing | ilass-core/src/segments.rs:446-457 | shifting keeps strictly increasing end points, and only those |
| SegmentSeq.Append | ilass-core/src/segments.rs:474-482 | the input followed by exactly one new segment |
| SegmentSeq.AppendExtends | ilass-core/src/segments.rs:474-482 | appending keeps the sequence increasing exactly when the new end lies past the old one; old points keep their value and points past the old end take the new data |
| SegmentOps.ExtendToFrom | ilass-core/src/segments.rs:838-869 | the `ExtendToIterator` state machine: input segments pass through, one ending exactly at `end_point` drops the pending extension, and the extension is emitted at the end; what it emits is stated by SegmentOps.ExtendToFromResult |
| SegmentOps.ExtendToFromResult | ilass-core/src/segments.rs:838-869 | the extending iterator adds its pending segment at `end_point` exactly when no input segment ends there, and otherwise passes the input through unchanged |
| SegmentOps.ExtendTo | ilass-core/src/segments.rs:777-789 | appends one zero-rating segment ending at `end_point` exactly when the input does not already end there |
| SegmentOps.ExtendToCovers | ilass-core/src/segments.rs:777-789 | the extended function ends at `end_point`, has one more segment unless it already ended there, equals the input where the input is defined and is 0 beyond it; an empty input becomes the single zero segment |
| SegmentOps.ClampEnd | ilass-core/src/segments.rs:821-835 | every end point is cut down to `clamp`, data unchanged |
| SegmentOps.ClampEndTruncates | ilass-core/src/segments.rs:821-835 | when only the last segment reaches `clamp`, the clamped function ends at `min(end, clamp)` and agrees with the input before it |
| SegmentOps.ClampEndCollapses | ilass-core/src/segments.rs:821-835 | when an earlier segment already reaches `clamp`, clamping produces two equal end points, so the result is no longer a valid segment sequence |
| SegmentOps.AddRating | ilass-core/src/segments.rs:807-819 | raises every segment's start rating by `rating_delta` and keeps end points and slopes |
| SegmentOps.AddRatingRaises | ilass-core/src/segments.rs:807-819 | the raised function is the input plus `rating_delta` at every point, over the same range |
| SegmentOps.OnlyRatings | ilass-core/src/segments.rs:727-732 | each dual segment projected to its rating, end points unchanged |
| SegmentOps.OnlyOffsets | ilass-core/src/segments.rs:719-724 | each dual segment projected to its offset, end points unchanged |
| SegmentOps.ProjectionsAgree | ilass-core/src/segments.rs:556-570 | the projected rating and offset functions equal the dual function's rating and offset at every point |
| SegmentOps.AnnotateWithOffsetInfo | ilass-core/src/segments.rs:1365-1387 | keeps every span and pairs it with an offset |
| SegmentOps.AnnotateWithOffsetInfoValues | ilass-core/src/segments.rs:1365-1387 | the annotated function keeps the rating at every point, and its offset grows by one per point from the generated offset of the segment's start |
| Differential.NewBuilder | ilass-core/src/segments.rs:247-256 | a new builder has an empty buffer and stands for the zero function |
| Differential.AddSegment | ilass-core/src/segments.rs:258-275 | adding a delta-delta `dd` at `segEnd` keeps the buffer strictly increasing and ending at `segEnd`, adds the ramp `dd * (t - segEnd)` from `segEnd` on, and merges into the last entry instead of pushing exactly when its end point is equal |
| Differential.ExtendToEnd | ilass-core/src/segments.rs:277-280 | the buffer ends at the builder's `end` and stands for the same function |
| Differential.RampSumBefore | ilass-core/src/segments.rs:258-275 | before the first stored end point the buffer's function is 0 |
| Differential.ScanFromDeltas | ilass-core/src/segments.rs:297-334 | the first segment has the initial rating and slope; segment `k`'s slope is the initial slope plus the first `k` delta-deltas |
| Differential.ScanFromContinuity | ilass-core/src/segments.rs:297-334 | each segment starts at the rating where the previous one ends, so the function has no jumps |
| Differential.ScanFrom | ilass-core/src/segments.rs:297-334 | as many segments as stored entries, with the same end points |
| Differential.IntoRatingIter | ilass-core/src/segments.rs:297-334 | one rating segment per delta-delta segment, with the same end point; its values are stated by Differential.IntoRatingIterEval |
| Differential.IntoRatingIterEval | ilass-core/src/segments.rs:297-334 | the rating iterator evaluates, at every point, to the sum of the ramps the buffer stores, over the buffer's range |
| Buffers.GetOffsetAt | ilass-core/src/segments.rs:1055-1068 | returns the offset function's value at `t` for every `t` in range |
| Buffers.EndOffset | ilass-core/src/segments.rs:1040-1053 | `end_offset` reads the last segment from its own start (the previous end point, or `start` for a single segment); Buffers.EndOffsetIsLastValue states what that value is |
| Buffers.EndOffsetIsLastValue | ilass-core/src/segments.rs:1040-1053 | `end_offset` is the value at the last covered point |
| Buffers.MaximumStepAsWritten | ilass-core/src/segments.rs:220-232 | one step of the fold exactly as written, including the start rating stored in the end-rating branch; the consequences are stated by the as-written lemmas below |
| Buffers.MaximumFromAsWritten | ilass-core/src/segments.rs:217-233 | the as-written fold over the remaining segments, from a running maximum, its point and the segment start |
| Buffers.MaximumAsWritten | ilass-core/src/segments.rs:217-236 | `maximum` as written: the fold from `(0, start)` |
| Buffers.MaximumAsWrittenStoresStartRating | ilass-core/src/segments.rs:217-236 | as written, a single segment rising from 0 to 5 over `[0, 2)` is reported as maximum 0 at point 1, although the rating at point 1 is 5 (see Findings) |
| Buffers.MaximumAsWrittenMissesRisingEnd | ilass-core/src/segments.rs:217-236 | as written, a segment rising from 1 to 6 reports maximum 1 at point 0 although 6 is reached at point 1 (see Findings) |
| Buffers.MaximumAsWrittenLowers | ilass-core/src/segments.rs:217-236 | as written, a constant segment at 5 followed by one rising from 0 ends the fold on rating 0, below the rating 5 it has already passed |
| Buffers.MaximumFromAsWrittenBelow | ilass-core/src/segments.rs:217-236 | the as-written fold never ends above the corrected fold started from a running maximum at least as large |
| Buffers.MaximumAsWrittenBelow | ilass-core/src/segments.rs:217-236 | the as-written maximum is at most the corrected one, so the source errs only downwards |
| Buffers.Maximum | ilass-core/src/segments.rs:217-236 | the corrected fold, comparing both end ratings of every segment; its meaning is stated by Buffers.MaximumIsMaximum |
| Buffers.MaximumIsMaximum | ilass-core/src/segments.rs:217-236 | the corrected maximum is at least 0, bounds the rating at every point, and is either the initial `(0, start)` or attained at the point it reports |
| Adder.RatingAdderFrom | ilass-core/src/segments.rs:1436-1533 | the sum of two aligned rating sequences tiles their common range |
| Adder.RatingAdderEndPoints | ilass-core/src/segments.rs:1462-1533 | the sum has a segment end exactly at every end point of either input |
| Adder.RatingAdderFromValues | ilass-core/src/segments.rs:1436-1533 | at every point the sum's rating is the sum of the two inputs' ratings |
| Adder.DualAdderFrom | ilass-core/src/segments.rs:1582-1682 | adding a rating sequence to a dual sequence tiles their common range |
| Adder.DualAdderEndPoints | ilass-core/src/segments.rs:1611-1682 | the result has a segment end exactly at every end point of either input |
| Adder.DualAdderFromValues | ilass-core/src/segments.rs:1582-1682 | at every point the rating is the sum of the two ratings and the offset is the dual input's offset |
| Adder.AddRatingIterators | ilass-core/src/segments.rs:1421-1533 | the sum of two rating functions over the same range tiles that range. This is `RatingAdderIterator` started on two whole sequences; `add_rating_iterators`, which would build it (ilass-core/src/segments.rs:1535-1563), is commented out, so only `RatingAdderIterator2` through `add_ratings_from` is reachable |
| Adder.AddRatingIteratorsSums | ilass-core/src/segments.rs:1421-1533 | the end points are the union of the inputs' end points and the value at every point is the sum of the inputs' values |
| Adder.AddRatingsFrom | ilass-core/src/segments.rs:650-676 | `add_ratings_from` tiles the common range of the dual and the rating function |
| Adder.AddRatingsFromSums | ilass-core/src/segments.rs:650-676 | the end points are the union of the inputs'; the rating is the sum and the offset the dual input's at every point |
| CombinedMaximum.Dominates | ilass-core/src/segments.rs:1171-1236 | a linear rating at least another at both ends of a span is at least it everywhere in between |
| CombinedMaximum.CrossingBounds | ilass-core/src/segments.rs:1171-1247 | when one rating starts above and ends below another, the slopes differ and the switch point lies strictly inside the span, as the source asserts |
| CombinedMaximum.CrossingValues | ilass-core/src/segments.rs:1171-1247 | before the switch point the rating that starts higher is at least the other; from the switch point on the other is strictly higher |
| CombinedMaximum.SwitchPointSymmetric | ilass-core/src/segments.rs:1238-1248 | the switch point does not depend on the order of the two linear functions |
| CombinedMaximum.GenerateMaximum | ilass-core/src/segments.rs:1171-1236 | the pieces generated for one common sub-interval tile it, followed by the rest |
| CombinedMaximum.GenerateMaximumValues | ilass-core/src/segments.rs:1171-1236 | on the sub-interval, the generated pieces carry at every point the larger rating of the two segments, with the offset of the segment that has it |
| CombinedMaximum.CombinedMaximumFrom | ilass-core/src/segments.rs:1254-1328 | the merged maximum of two aligned sequences tiles their common range |
| Lanes.NextLanes | ilass-core/src/segments.rs:1263-1323 | a `next()` of a two-input iterator that does not finish (written out alike in the combined maximum and both adders) leaves two aligned lanes that start at the end of the emitted piece, cover the same range and hold fewer segments, so the "ended before" panics never fire on inputs of the same range |
| CombinedMaximum.CombinedMaximumOf | ilass-core/src/segments.rs:1332-1360 | `combined_maximum_of_dual_iterators` tiles the common range of its two inputs |
| CombinedMaximum.CombinedMaximumIsMaximum | ilass-core/src/segments.rs:1332-1360 | at every point the rating is the maximum of the two inputs' ratings, and the offset is the offset of an input that attains it |
| LeftToRight.Step | ilass-core/src/segments.rs:917-993 | the pieces one `next()` emits for an input segment tile that segment |
| LeftToRight.StepBest | ilass-core/src/segments.rs:917-993 | after a segment, the best rating is the maximum of the previous best and the segment's two end ratings; it bounds the segment's ratings and is either unchanged or attained in the segment with its offset |
| LeftToRight.StepValues | ilass-core/src/segments.rs:917-993 | at every point of the segment, the emitted pieces carry the best rating and offset seen so far, counting the segment up to that point |
| LeftToRight.LeftToRightFrom | ilass-core/src/segments.rs:871-993 | `LeftToRightMaximumIterator` from a best pair: the output tiles the input's range and ends where the input ends |
| LeftToRight.LeftToRightMaximum | ilass-core/src/segments.rs:1145-1153 | the running maximum tiles the same range as its input |
| LeftToRight.LeftToRightMaximumValues | ilass-core/src/segments.rs:1145-1153 | at every point `t` the output rating is at least 0 and at least every input rating up to `t`, and the output pair is the initial `(0, start)` or the input's rating and offset at some point up to `t` |
| LeftToRight.LeftToRightMaximumMonotone | ilass-core/src/segments.rs:887-993 | the output rating never decreases from left to right |
| Simplify.SimplifyFrom | ilass-core/src/segments.rs:1970-1991 | merging into a run keeps the run's start and data as the first output segment and never produces more segments than it was given plus the run |
| Simplify.SimplifyFromMaximal | ilass-core/src/segments.rs:1970-1991 | no two neighbouring output segments satisfy the merge condition |
| Simplify.SimplifySegmentsShape | ilass-core/src/segments.rs:1893-1991 | the simplified segments tile the input's range, end at the same point, use only input end points and cannot be merged further |
| Simplify.SimplifySegmentsEval | ilass-core/src/segments.rs:1893-1991 | for a sound merge condition, the simplified function equals the input at every point |
| Simplify.RatingsMergeSound | ilass-core/src/segments.rs:1982-1983 | the rating merge condition (equal slope, next start rating equals the exclusive end rating) only merges segments that continue the same line |
| Simplify.OffsetsMergeSound | ilass-core/src/segments.rs:1923-1924 | the offset merge condition (equal drag, next start offset equals the exclusive end offset) only merges segments that continue the same offset function |
| Simplify.DualMergeSound | ilass-core/src/segments.rs:2175-2178 | the dual merge condition only merges segments that continue both the rating and the offset |
| Simplify.SimplifyRatings | ilass-core/src/segments.rs:1951-2004 | `SimplifyRatingPushIterator` is the run-merging function with the rating merge condition; Simplify.SimplifyRatingsCorrect states what it keeps |
| Simplify.SimplifyOffsets | ilass-core/src/segments.rs:1893-1948 | `SimplifyOffsetPushIterator` is the run-merging function with the offset merge condition; Simplify.SimplifyOffsetsCorrect states what it keeps |
| Simplify.DualSimplify | ilass-core/src/segments.rs:2146-2189 | `DualIterator::simplify` is the run-merging function with the dual merge condition; Simplify.DualSimplifyCorrect states what it keeps |
| Simplify.SimplifyRatingsCorrect | ilass-core/src/segments.rs:1951-2004 | the rating simplifier keeps the range, the end, and the value at every point; has no more segments than the input; keeps a subset of its end points; leaves no mergeable neighbours |
| Simplify.SimplifyOffsetsCorrect | ilass-core/src/segments.rs:1893-1948 | the same for the offset simplifier |
| Simplify.DualSimplifyCorrect | ilass-core/src/segments.rs:2146-2189 | the same for `DualIterator::simplify`, for the rating and offset together |
| PushIter.MapSeq | ilass-core/src/segments.rs:2066-2093 | the mapped sequence has the input's length with `f` applied at every index |
| PushIter.FeedAppend | ilass-core/src/segments.rs:2095-2105 | pushing `xs` and then `ys` leaves the state that pushing `xs + ys` leaves |
| PushIter.IntoCollect | ilass-core/src/segments.rs:2007-2024 | `into_push_iter` into `collect_to_vec_push_iter` returns the pushed items, in order |
| PushIter.IntoMap | ilass-core/src/segments.rs:2066-2118 | pushing through a map push iterator is pushing the mapped items |
| PushIter.IntoDual | ilass-core/src/segments.rs:2026-2064 | a dual push iterator returns what its two consumers return when each gets every item |
| PushIter.IntoSimplify | ilass-core/src/segments.rs:1951-2004 | pushing through the simplifying push iterator is pushing the simplified sequence into the consumer behind it |
| PushIter.SaveSimplified | ilass-core/src/segments.rs:767-775 | `save_simplified` feeds the segments through the simplifying push iterator into a collector; PushIter.SaveSimplifiedCorrect states the buffer it stores |
| PushIter.SaveSimplifiedCorrect | ilass-core/src/segments.rs:767-775 | `save_simplified` stores the simplified rating segments; the buffer is increasing, ends where the input ends, has no more segments, and has the input's value at every point |
| PushIter.SaveSeparate | ilass-core/src/segments.rs:679-716 | `save_separate` feeds one dual push iterator: simplified ratings into the aggressive stage, simplified offsets into a collector; PushIter.SaveSeparateCorrect states the two buffers |
| PushIter.SaveSeparateCorrect | ilass-core/src/segments.rs:679-716 | `save_separate` stores as offset buffer the simplified offsets of the input, and feeds the simplified ratings to the aggressive stage |
| ChunkedAudio.New | ilass-cli/src/video_decoder.rs:27-33 | a buffer of `size` zeros with nothing pending; it has room for a sample exactly when `size >= 1`, which the push's assertion needs |
| ChunkedAudio.PushSamples | ilass-cli/src/video_decoder.rs:40-62 | forwards exactly the full chunks of the pending samples followed by the new ones and keeps the rest pending with room left; passes the next receiver's first error through unchanged; an empty push changes nothing |
| ChunkedAudio.ChunksShape | ilass-cli/src/video_decoder.rs:43-59 | every forwarded chunk is full, fewer than `n` samples remain, and the chunks followed by the remainder give back the samples in order |
| ChunkedAudio.PushRefAppend | ilass-cli/src/video_decoder.rs:40-62 | pushing `xs` and then `ys` forwards and keeps what pushing `xs + ys` does: chunking does not depend on how the samples are split into pushes |
| ChunkedAudio.RecordedDelivery | ilass-cli/src/video_decoder.rs:40-66 | a new receiver in front of a recorder delivers full chunks that spell out the samples minus a remainder shorter than the chunk size; `finish` never delivers that remainder, so everything arrives exactly when the remainder is empty |
| ChunkedAudio.Finish | ilass-cli/src/video_decoder.rs:64-66 | `finish` hands over to the next receiver's `finish`; the pending samples are never forwarded |
| FFmpegMetadata.ParseCodecType | ilass-cli/src/video_decoder/ffmpeg_binary.rs:24-34 | the three known names map to their variants, and only they do; any other string is kept verbatim |
| FFmpegMetadata.ParseCodecTypeKeepsName | ilass-cli/src/video_decoder/ffmpeg_binary.rs:24-34 | reading a codec type loses nothing: its name is the string read |
| FFmpegMetadata.Candidates | ilass-cli/src/video_decoder/ffmpeg_binary.rs:172-175 | exactly the audio streams with a known channel count, in order |
| FFmpegMetadata.MinByChannels | ilass-cli/src/video_decoder/ffmpeg_binary.rs:178 | the index of the first stream with the least channel count |
| FFmpegMetadata.FindIndex | ilass-cli/src/video_decoder/ffmpeg_binary.rs:179 | the first stream with index `ai`, or none exactly when no stream has it |
| FFmpegMetadata.CandidatePosition | ilass-cli/src/video_decoder/ffmpeg_binary.rs:172-175 | the `k`-th candidate sits at some stream position `i`, and the candidates before `i` are exactly the first `k` candidates |
| FFmpegMetadata.FirstLeast | ilass-cli/src/video_decoder/ffmpeg_binary.rs:178 | the stream `min_by_key` picks has strictly more channels in every earlier candidate |
| FFmpegMetadata.FirstWithIndex | ilass-cli/src/video_decoder/ffmpeg_binary.rs:179 | the stream `find` picks has no earlier candidate with the requested index |
| FFmpegMetadata.SelectStream | ilass-cli/src/video_decoder/ffmpeg_binary.rs:172-189 | fails with `NoAudioStream(path)` exactly when no candidate (or none with the requested index) exists; otherwise it picks, in stream order, the first candidate of least channel count when no index is given (`min_by_key` keeps the first minimum), and the first candidate with the requested index otherwise |
| FFmpegMetadata.DurationText | ilass-cli/src/video_decoder/ffmpeg_binary.rs:226-229 | the stream's duration when present, else the format's, and `NoDurationInformation` exactly when neither exists |
| FFmpegRender.FormatCmdAsWritten | ilass-cli/src/video_decoder/ffmpeg_binary.rs:93-109 | as written, the rendering is the path immediately followed by the space-joined arguments (see Findings) |
| FFmpegRender.RenderAsWritten | ilass-cli/src/video_decoder/ffmpeg_binary.rs:93-109 | the as-written `fmt` as a function: the path followed directly by the space-joined arguments (see Findings) |
| FFmpegRender.RenderAsWrittenGlues | ilass-cli/src/video_decoder/ffmpeg_binary.rs:93-109 | as written, `ffprobe` with `-v error` renders as `ffprobe-v error`, and two different commands render the same |
| FFmpegRender.Render | ilass-cli/src/video_decoder/ffmpeg_binary.rs:93-109 | the corrected `fmt`: a space before every argument; FFmpegRender.RenderSplits and FFmpegRender.RenderIsSpacedJoin state its properties |
| FFmpegRender.RenderSplits | ilass-cli/src/video_decoder/ffmpeg_binary.rs:93-109 | the corrected rendering splits at spaces back into the path and the arguments when none of them contains a space |
| FFmpegRender.RenderIsSpacedJoin | ilass-cli/src/video_decoder/ffmpeg_binary.rs:93-109 | with at least one argument, the corrected rendering is the as-written one with the missing space put back |
| FFmpegRender.NatDigits | ilass-cli/src/video_decoder/ffmpeg_binary.rs:118 | decimal digits only, at least one, and no leading zero |
| FFmpegRender.DecimalRoundTrip | ilass-cli/src/video_decoder/ffmpeg_binary.rs:118 | the decimal rendering of an integer reads back as that integer |
| FFmpegRender.RenderExitCode | ilass-cli/src/video_decoder/ffmpeg_binary.rs:114-122 | `ProcessErrorCode::fmt`: the code in decimal, or `interrupted?` without one; FFmpegRender.RenderExitCodeInjective states that nothing is lost |
| FFmpegRender.RenderExitCodeInjective | ilass-cli/src/video_decoder/ffmpeg_binary.rs:114-122 | different exit codes render differently, and no code renders as `interrupted?` |
| FFmpegSamples.ReadI16 | ilass-cli/src/video_decoder/ffmpeg_binary.rs:336-337 | `read_i16` of a low and a high byte, as a signed 16-bit value; FFmpegSamples.ReadI16RoundTrip states that it inverts the `s16le` encoding |
| FFmpegSamples.ParseBytes | ilass-cli/src/video_decoder/ffmpeg_binary.rs:332-357 | the parser state machine over a run of bytes, in order; FFmpegSamples.ParseBytesPairs states what it yields |
| FFmpegSamples.Pairs | ilass-cli/src/video_decoder/ffmpeg_binary.rs:332-357 | `n` bytes give `n / 2` samples, the `i`-th read little-endian from bytes `2i` and `2i+1`; a trailing odd byte gives nothing |
| FFmpegSamples.ParseBytesPairs | ilass-cli/src/video_decoder/ffmpeg_binary.rs:332-357 | from any parser state the parser yields exactly the byte pairs of the held byte followed by the input, and holds back the odd byte, if any |
| FFmpegSamples.ParseBytesAppend | ilass-cli/src/video_decoder/ffmpeg_binary.rs:332-357 | parsing `a` and then `b` yields what parsing `a + b` yields: the parser state carries across reads |
| FFmpegSamples.DecodeEncoded | ilass-cli/src/video_decoder/ffmpeg_binary.rs:337 | decoding the `s16le` bytes of a sample sequence gives back the samples and leaves no byte pending |
| FFmpegSamples.PrescaleCount | ilass-cli/src/video_decoder/ffmpeg_binary.rs:342-347 | from counter 0, after `n >= 1` samples the counter is `(n-1) % 200 + 1` and `inc()` has fired `(n-1) / 200` times |
| FFmpegSamples.PrescaleAppend | ilass-cli/src/video_decoder/ffmpeg_binary.rs:342-347 | the prescaler over `m + n` samples is the prescaler over `m` and then over `n` |
| FFmpegSamples.ReadRef | ilass-cli/src/video_decoder/ffmpeg_binary.rs:332-357 | the reference result of one read, against which FFmpegSamples.ProcessRead is proved |
| FFmpegSamples.ProcessRead | ilass-cli/src/video_decoder/ffmpeg_binary.rs:332-357 | one read pushes its decoded samples one at a time, advances the prescaler by their number, keeps the parser state, and stops with `AudioSegmentProcessingFailed` at the first receiver error |
| FFmpegSamples.ReadRefAppend | ilass-cli/src/video_decoder/ffmpeg_binary.rs:282-357 | two reads in a row give what one read of all their bytes gives |
| FFmpegSamples.EndOfStream | ilass-cli/src/video_decoder/ffmpeg_binary.rs:292-330 | at a read of zero bytes: exit code 0 finishes the receiver after an empty push and succeeds exactly when both succeed, failing otherwise with `AudioSegmentProcessingFailed`; any other code, or none, fails with the stderr text, or with the code when stderr is empty. These are the errors of `extract_audio_stream`; `decode` then replaces each of them (see FFmpegSamples.ExtractAudio) |
| FFmpegSamples.ReadsFlatten | ilass-cli/src/video_decoder/ffmpeg_binary.rs:282-357 | however the pipe splits the stream into reads of at least one byte, the loop ends as one read of all the bytes would |
| FFmpegSamples.DecodeEncodedStream | ilass-cli/src/video_decoder/ffmpeg_binary.rs:282-357 | the `s16le` stream of samples `xs`, split in any way into reads of at least one byte, pushes exactly `xs` one at a time, leaves no byte pending and counts the progress of `|xs|` samples |
| FFmpegSamples.Reads | ilass-cli/src/video_decoder/ffmpeg_binary.rs:282-357 | the reads of a whole stream in order, up to the first read of zero bytes or the first error; FFmpegSamples.ReadsFlatten and FFmpegSamples.ReadsStopAtEnd state its properties |
| FFmpegSamples.ReadsStopAtEnd | ilass-cli/src/video_decoder/ffmpeg_binary.rs:289-293 | nothing after a read of zero bytes is read: the reads before it decide the result |
| FFmpegSamples.Decode | ilass-cli/src/video_decoder/ffmpeg_binary.rs:282-357 | the whole loop of `extract_audio_stream`: every read, then the end of the stream |
| FFmpegSamples.ExtractAudio | ilass-cli/src/video_decoder/ffmpeg_binary.rs:239-247 | `decode` succeeds exactly when the extraction does, with the same output, and replaces every extraction error by `FailedExtractingAudio` naming the file and the ffmpeg command |
| FFmpegSamples.ExtractAudioHidesCause | ilass-cli/src/video_decoder/ffmpeg_binary.rs:239-247 | two failing exit codes with any stderr texts give the same error from `decode`: the cause is not passed on |

## Left out

- Aggressive simplification (`AggressiveSimplifyRatingPushIterator` and its interval helpers, ilass-core/src/segments.rs:1741-1889) works on `f64` intervals with infinities. `PushIter.SaveSeparate` takes it as an abstract push iterator. `save_aggressively_simplified` is not part of this model. `PointSpan::half` (ilass-core/src/segments.rs:29-32) is used only by that stage and is left out with it.
- `rating_type` and `time_types` are not part of this model. Ratings, deltas and points are unbounded integers, `add_mul(r, d, l)` is `r + d * l`, and `div_by_delta_to_i64` is exact floor division (`Arith.FloorDiv`). No `i64` overflow is modelled.
- `shift_simple` (ilass-core/src/segments.rs:460-471) moves the end points but keeps the start. It is not modelled separately: its segments are those of `SegmentSeq.Shift`.
- `OffsetBuffer::maximum` and `minimum` (ilass-core/src/segments.rs:1070-1113), and the `save` / `iter` / `into_iter` buffer wrappers, are left out. They are plain folds or collections outside the algebra modelled here.
- The panics of the segment iterators are preconditions, not error results: the `expect` on empty inputs, the end point checks of the adders and maximum iterators, and the span assert of `discard_start_times_push_iter`. `Annotate` is the exception.
- Simplify.SimplifySegmentsEval, Simplify.SimplifyRatingsCorrect, Simplify.SimplifyOffsetsCorrect and Simplify.DualSimplifyCorrect state meaning preservation only for inputs with strictly increasing end points. Those are the only inputs on which the source's segment sequences are valid.
- CombinedMaximum.CombinedMaximumIsMaximum: on a tie between the two ratings it only states that the offset belongs to one of the two inputs. It does not state which one the source picks.
- ChunkedAudio.ChunksShape states the chunk count as `|chunks| * n + |rem| == |xs|` with `|rem| < n`, rather than as a division.
- ChunkedAudio.PushSamples does not describe the receiver after an error. In the source, `filled` then equals the buffer length and a later push fails its assertion; the model returns only the error.
- The cause of an extraction failure: `decode` (ilass-cli/src/video_decoder/ffmpeg_binary.rs:239-247) replaces every error of `extract_audio_stream` (a receiver failure, an exit code, ffmpeg's stderr text) by `FailedExtractingAudio` naming the file and the command, as FFmpegSamples.ExtractAudio states. The distinct errors exist only inside the extraction, and FFmpegSamples.EndOfStream describes them there.
- `VideoDecoder::decode` (ilass-cli/src/video_decoder.rs:115-205) calls the FFmpeg library and is not modelled.
- The subprocess and I/O code of ffmpeg_binary.rs is not modelled: spawning, `read`, `wait`, reading stderr, the environment lookup and the JSON decoding. Each read's bytes, the exit code and the stderr text are parameters.
- Parsing the duration string as `f64`, `duration * 8000`, and the progress handler's `init` and `finish` calls are floating-point or output work. Only the `inc()` count is modelled.
- The lossy conversion of paths and OS strings is not modelled. Command paths and arguments are the strings that conversion produces.
- ilass-cli/src/errors.rs holds only error types and message templates, and is not part of this model. The debug `println!` calls carry no logic.

## Findings

| source | as written | input that shows it | evidently intended | confidence | as-written member | corrected member |
|---|---|---|---|---|---|---|
| ilass-cli/src/video_decoder/ffmpeg_binary.rs:93-109 | the separator flag skips the space before the first argument, so the path is glued to it | `CmdWithArgs { cmd_path: "ffprobe", args: ["-v", "error"] }` renders as `ffprobe-v error` | a space between the path and every argument: `ffprobe -v error` | not executed | FFmpegRender.RenderAsWrittenGlues | FFmpegRender.RenderSplits |
| ilass-core/src/segments.rs:217-236 | in the end-rating branch (line 229) the fold stores the segment's start rating, not its end rating, next to the end point | one segment ending at 2 with rating 0 and delta 5, from start 0: reports `(0, 1)` although the rating at point 1 is 5; after a constant segment at 5, the same branch ends the fold on 0 (Buffers.MaximumAsWrittenLowers) | the end rating stored with the end point | not executed | Buffers.MaximumAsWrittenStoresStartRating | Buffers.MaximumIsMaximum |
| ilass-core/src/segments.rs:217-236 | the start-rating branch (lines 226-227) is taken whenever the start beats the running maximum, so a larger end rating of the same segment is never recorded | one segment ending at 2 with rating 1 and delta 5, from start 0: reports `(1, 0)` although the rating at point 1 is 6 | the larger of the two end ratings, with the point where it is attained | not executed | Buffers.MaximumAsWrittenMissesRisingEnd | Buffers.MaximumIsMaximum |
