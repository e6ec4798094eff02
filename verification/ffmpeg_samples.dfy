/** The sample loop of `VideoDecoderFFmpegBinary::extract_audio_stream` in
    ffmpeg_binary.rs: the bytes ffmpeg writes (`s16le`: signed 16-bit
    little-endian samples) are paired into samples by a two-state parser
    whose state survives from one read to the next; every sample is pushed
    to the audio receiver on its own, and a prescaled counter reports
    progress. Reading the pipe and waiting for the process are not
    modelled: each read is a parameter. */
module FFmpegSamples {
  import opened Wrappers
  import opened ChunkedAudio
  import FFmpegMetadata
  import FFmpegRender

  type Byte = x: int | 0 <= x < 0x100

  /** `byteorder::LittleEndian::read_i16` of `[lo, hi]`. */
  function ReadI16(lo: Byte, hi: Byte): Sample {
    var u := lo + 0x100 * hi;
    if u >= 0x8000 then u - 0x1_0000 else u
  }

  /** The two bytes `s16le` stores for a sample, low byte first. */
  function LeBytes(s: Sample): (Byte, Byte) {
    var u := if s < 0 then s + 0x1_0000 else s;
    (u % 0x100, u / 0x100)
  }

  /** Reading a sample from its two bytes gives the sample back, and every
      byte pair is the encoding of the sample read from it. */
  lemma ReadI16RoundTrip(s: Sample, lo: Byte, hi: Byte)
    ensures ReadI16(LeBytes(s).0, LeBytes(s).1) == s
    ensures LeBytes(ReadI16(lo, hi)) == (lo, hi)
  {
  }

  /** `ParserState`: no byte pending, or the low byte of the next sample. */
  datatype ParserState = Start | SingleByte(last: Byte)

  /** One byte through the parser: the samples it completes. */
  function ParseByte(st: ParserState, b: Byte): (ParserState, seq<Sample>) {
    match st
    case Start => (SingleByte(b), [])
    case SingleByte(lo) => (Start, [ReadI16(lo, b)])
  }

  /** A run of bytes through the parser, in order. */
  function ParseBytes(st: ParserState, bs: seq<Byte>): (ParserState, seq<Sample>)
    decreases |bs|
  {
    if |bs| == 0 then (st, [])
    else
      var (s1, xs) := ParseByte(st, bs[0]);
      var (s2, ys) := ParseBytes(s1, bs[1..]);
      (s2, xs + ys)
  }

  /** The bytes the parser state holds back. */
  function Held(st: ParserState): seq<Byte> {
    match st
    case Start => []
    case SingleByte(b) => [b]
  }

  /** The reference decoding: consecutive byte pairs, a trailing odd byte
      dropped. */
  function Pairs(bs: seq<Byte>): (r: seq<Sample>)
    ensures |r| == |bs| / 2
    ensures forall i :: 0 <= i < |r| ==> r[i] == ReadI16(bs[2 * i], bs[2 * i + 1])
    decreases |bs|
  {
    if |bs| < 2 then [] else [ReadI16(bs[0], bs[1])] + Pairs(bs[2..])
  }

  /** From any state the parser decodes exactly the byte pairs of the held
      byte followed by the input, and afterwards holds the unpaired last
      byte, if any. */
  lemma ParseBytesPairs(st: ParserState, bs: seq<Byte>)
    ensures ParseBytes(st, bs).1 == Pairs(Held(st) + bs)
    ensures var all := Held(st) + bs;
      ParseBytes(st, bs).0 == if |all| % 2 == 0 then Start else SingleByte(all[|all| - 1])
  {
    ParseHeld(st, bs);
    ParseFromStart(Held(st) + bs);
  }

  /** A held byte is parsed as if it came first. */
  lemma ParseHeld(st: ParserState, bs: seq<Byte>)
    ensures ParseBytes(st, bs) == ParseBytes(Start, Held(st) + bs)
  {
    match st
    case Start =>
      assert Held(st) + bs == bs;
    case SingleByte(lo) =>
      var all := [lo] + bs;
      assert all[0] == lo && all[1..] == bs;
      var t := ParseBytes(st, bs);
      assert ParseBytes(Start, all) == (t.0, [] + t.1);
      assert [] + t.1 == t.1;
  }

  lemma ParseOne(st: ParserState, b: Byte)
    ensures ParseBytes(st, [b]) == ParseByte(st, b)
  {
    assert [b][1..] == [];
    assert ParseByte(st, b).1 + [] == ParseByte(st, b).1;
  }

  lemma {:induction false} ParseFromStart(bs: seq<Byte>)
    ensures ParseBytes(Start, bs) == (if |bs| % 2 == 0 then Start else SingleByte(bs[|bs| - 1]), Pairs(bs))
    decreases |bs|
  {
    if |bs| == 1 {
      assert ParseBytes(Start, bs) == (ParseBytes(SingleByte(bs[0]), bs[1..]).0, [] + ParseBytes(SingleByte(bs[0]), bs[1..]).1);
      assert bs[1..] == [];
    } else if |bs| >= 2 {
      var rest := bs[2..];
      ParseFromStart(rest);
      assert bs[1..][0] == bs[1] && bs[1..][1..] == rest;
      var tail := ParseBytes(Start, rest);
      assert ParseBytes(SingleByte(bs[0]), bs[1..]) == (tail.0, [ReadI16(bs[0], bs[1])] + tail.1);
      assert ParseBytes(Start, bs) == (tail.0, [] + ([ReadI16(bs[0], bs[1])] + tail.1));
      assert |rest| > 0 ==> rest[|rest| - 1] == bs[|bs| - 1];
      assert Pairs(bs) == [ReadI16(bs[0], bs[1])] + Pairs(rest);
      assert [] + ([ReadI16(bs[0], bs[1])] + tail.1) == Pairs(bs);
      assert |bs| % 2 == |rest| % 2;
    }
  }

  /** The parser's output does not depend on how the bytes are split across
      reads: parsing `a` and then `b` is parsing `a + b`. */
  lemma {:induction false} ParseBytesAppend(st: ParserState, a: seq<Byte>, b: seq<Byte>)
    ensures var (s1, xs) := ParseBytes(st, a);
      var (s2, ys) := ParseBytes(s1, b);
      ParseBytes(st, a + b) == (s2, xs + ys)
    decreases |a|
  {
    if |a| == 0 {
      assert a + b == b;
      assert [] + ParseBytes(st, b).1 == ParseBytes(st, b).1;
    } else {
      var (s1, xs0) := ParseByte(st, a[0]);
      assert (a + b)[0] == a[0];
      assert (a + b)[1..] == a[1..] + b;
      ParseBytesAppend(s1, a[1..], b);
      var left := ParseBytes(s1, a[1..]);
      var right := ParseBytes(left.0, b);
      assert ParseBytes(s1, a[1..] + b) == (right.0, left.1 + right.1);
      assert ParseBytes(st, a + b) == (right.0, xs0 + (left.1 + right.1));
      assert ParseBytes(st, a) == (left.0, xs0 + left.1);
      assert xs0 + (left.1 + right.1) == (xs0 + left.1) + right.1;
    }
  }

  /** The bytes of a sample sequence in `s16le`. */
  function Encode(xs: seq<Sample>): (bs: seq<Byte>)
    ensures |bs| == 2 * |xs|
    decreases |xs|
  {
    if |xs| == 0 then [] else [LeBytes(xs[0]).0, LeBytes(xs[0]).1] + Encode(xs[1..])
  }

  /** Decoding inverts ffmpeg's encoding: the samples of an `s16le` stream,
      however it is split into reads, are the samples encoded. */
  lemma DecodeEncoded(xs: seq<Sample>)
    ensures Pairs(Encode(xs)) == xs
    ensures ParseBytes(Start, Encode(xs)) == (Start, xs)
  {
    PairsEncode(xs);
    ParseBytesPairs(Start, Encode(xs));
    assert Held(Start) + Encode(xs) == Encode(xs);
  }

  lemma {:induction false} PairsEncode(xs: seq<Sample>)
    ensures Pairs(Encode(xs)) == xs
    decreases |xs|
  {
    if |xs| > 0 {
      PairsEncode(xs[1..]);
      var e := Encode(xs);
      assert e[2..] == Encode(xs[1..]);
      ReadI16RoundTrip(xs[0], 0, 0);
      assert Pairs(e) == [ReadI16(e[0], e[1])] + Pairs(e[2..]);
      assert [xs[0]] + xs[1..] == xs;
    }
  }

  // ------------------------------------------------------------------
  // Progress prescaler

  /** `PROGRESS_PRESCALER`. */
  const ProgressPrescaler: nat := 200

  /** The counter update after one pushed sample: `inc()` fires when the
      counter has reached the prescaler, which resets it, and the counter
      then counts the sample. */
  function PrescaleStep(counter: nat): (nat, bool) {
    if counter == ProgressPrescaler then (1, true) else (counter + 1, false)
  }

  /** The counter and the number of `inc()` calls after `n` samples. */
  function Prescale(counter: nat, n: nat): (nat, nat)
    decreases n
  {
    if n == 0 then (counter, 0)
    else
      var (c1, k) := Prescale(counter, n - 1);
      var (c2, fired) := PrescaleStep(c1);
      (c2, if fired then k + 1 else k)
  }

  /** Starting from 0, after `n >= 1` samples the counter is in `1..200` and
      `inc()` has been called `(n - 1) / 200` times. */
  lemma {:induction false} PrescaleCount(n: nat)
    requires n >= 1
    ensures Prescale(0, n) == ((n - 1) % ProgressPrescaler + 1, (n - 1) / ProgressPrescaler)
    decreases n
  {
    if n > 1 {
      PrescaleCount(n - 1);
      var m := n - 2;
      assert Prescale(0, n - 1) == (m % 200 + 1, m / 200);
      if m % 200 == 199 {
        assert (m + 1) % 200 == 0 && (m + 1) / 200 == m / 200 + 1;
      } else {
        assert (m + 1) % 200 == m % 200 + 1 && (m + 1) / 200 == m / 200;
      }
    }
  }

  /** No sample, no call: with no samples at all `inc()` is never called. */
  lemma PrescaleNoSamples()
    ensures Prescale(0, 0) == (0, 0)
  {
  }

  // ------------------------------------------------------------------
  // The per-read loop

  /** The errors of the sample loop: a receiver error becomes
      `AudioSegmentProcessingFailed`; a process that did not exit cleanly is
      reported by its exit code when it wrote nothing to stderr, and by its
      stderr text otherwise. */
  datatype SampleError =
    | AudioSegmentProcessingFailed
    | ProcessErrorCode(cmdPath: string, code: Option<int>)
    | ProcessErrorMessage(msg: string)

  /** The loop state carried between reads. */
  datatype LoopState<R> = LoopState(parser: ParserState, counter: nat, incs: nat, receiver: R)

  function Singletons(xs: seq<Sample>): (cs: seq<seq<Sample>>)
    ensures |cs| == |xs| && forall i :: 0 <= i < |xs| ==> cs[i] == [xs[i]]
  {
    seq(|xs|, i requires 0 <= i < |xs| => [xs[i]])
  }

  /** The reference result of one read: the decoded samples pushed one at a
      time, the progress counter advanced by their number. */
  function ReadRef<R, E>(s: LoopState<R>, push: (R, seq<Sample>) -> Result<R, E>, bytes: seq<Byte>): Result<LoopState<R>, SampleError> {
    var (p, xs) := ParseBytes(s.parser, bytes);
    var (c, k) := Prescale(s.counter, |xs|);
    match SinkFeed(push, s.receiver, Singletons(xs))
    case Err(_) => Err(AudioSegmentProcessingFailed)
    case Ok(r) => Ok(LoopState(p, c, s.incs + k, r))
  }

  /** The loop over the bytes of one read in `extract_audio_stream`: each byte goes
      through the parser; a completed sample is pushed to the receiver,
      whose error ends the loop, and counted by the prescaler. */
  method ProcessRead<R, E>(s: LoopState<R>, push: (R, seq<Sample>) -> Result<R, E>, bytes: seq<Byte>)
    returns (res: Result<LoopState<R>, SampleError>)
    ensures res == ReadRef(s, push, bytes)
  {
    var parser := s.parser;
    var counter := s.counter;
    var incs := s.incs;
    var r := s.receiver;
    ghost var done: seq<Sample> := [];
    var i := 0;
    while i < |bytes|
      invariant 0 <= i <= |bytes|
      invariant ParseBytes(s.parser, bytes[..i]) == (parser, done)
      invariant Prescale(s.counter, |done|) == (counter, incs - s.incs)
      invariant incs >= s.incs
      invariant SinkFeed(push, s.receiver, Singletons(done)) == Ok(r)
    {
      var b := bytes[i];
      ParseBytesAppend(s.parser, bytes[..i], [b]);
      ParseOne(parser, b);
      assert bytes[..i + 1] == bytes[..i] + [b];
      if parser.Start? {
        assert done + [] == done;
        parser := SingleByte(b);
      } else {
        var lo := parser.last;
        var sample := ReadI16(lo, b);
        assert Singletons(done + [sample]) == Singletons(done) + [[sample]];
        SinkFeedAppend(push, s.receiver, Singletons(done), [[sample]]);
        var out := push(r, [sample]);
        if out.Err? {
          RestFails(s, push, bytes, i + 1, done + [sample]);
          return Err(AudioSegmentProcessingFailed);
        }
        r := out.value;
        if counter == ProgressPrescaler {
          incs := incs + 1;
          counter := 0;
        }
        counter := counter + 1;
        done := done + [sample];
        parser := Start;
      }
      i := i + 1;
    }
    assert bytes[..i] == bytes;
    res := Ok(LoopState(parser, counter, incs, r));
  }

  /** Once a push has failed, the reference result of the whole read is the
      error, whatever bytes follow. */
  lemma RestFails<R, E>(s: LoopState<R>, push: (R, seq<Sample>) -> Result<R, E>, bytes: seq<Byte>, i: nat, done: seq<Sample>)
    requires i <= |bytes|
    requires ParseBytes(s.parser, bytes[..i]).1 == done
    requires SinkFeed(push, s.receiver, Singletons(done)).Err?
    ensures ReadRef(s, push, bytes).Err?
  {
    assert bytes == bytes[..i] + bytes[i..];
    ParseBytesAppend(s.parser, bytes[..i], bytes[i..]);
    var xs := ParseBytes(s.parser, bytes).1;
    var ys := ParseBytes(ParseBytes(s.parser, bytes[..i]).0, bytes[i..]).1;
    assert xs == done + ys;
    assert Singletons(xs) == Singletons(done) + Singletons(ys);
    SinkFeedAppend(push, s.receiver, Singletons(done), Singletons(ys));
  }

  /** Two reads in a row give what one read of all their bytes gives: the
      samples, the parser state, the progress count and the receiver do not
      depend on how the pipe splits the stream. */
  lemma ReadRefAppend<R, E>(s: LoopState<R>, push: (R, seq<Sample>) -> Result<R, E>, a: seq<Byte>, b: seq<Byte>)
    ensures ReadRef(s, push, a + b)
         == match ReadRef(s, push, a)
            case Err(e) => Err(e)
            case Ok(s1) => ReadRef(s1, push, b)
  {
    ParseBytesAppend(s.parser, a, b);
    var (p1, xs) := ParseBytes(s.parser, a);
    var (p2, ys) := ParseBytes(p1, b);
    assert Singletons(xs + ys) == Singletons(xs) + Singletons(ys);
    SinkFeedAppend(push, s.receiver, Singletons(xs), Singletons(ys));
    PrescaleAppend(s.counter, |xs|, |ys|);
  }

  lemma {:induction false} PrescaleAppend(counter: nat, m: nat, n: nat)
    ensures var (c1, k1) := Prescale(counter, m);
      var (c2, k2) := Prescale(c1, n);
      Prescale(counter, m + n) == (c2, k1 + k2)
    decreases n
  {
    if n > 0 {
      PrescaleAppend(counter, m, n - 1);
    }
  }

  // ------------------------------------------------------------------
  // The end of the stream

  /** A read of zero bytes ends the loop of `extract_audio_stream`. Exit code 0: the
      sample buffer, which the loop never fills, is pushed (an empty push)
      and the receiver is finished; a receiver error is
      `AudioSegmentProcessingFailed`. Any other code, or none: the stderr
      text, or the code when stderr is empty. */
  function EndOfStream<R, O, E>(s: LoopState<R>, push: (R, seq<Sample>) -> Result<R, E>, finish: R -> Result<O, E>,
                                cmdPath: string, code: Option<int>, stderr: string): (r: Result<O, SampleError>)
    ensures code != Some(0) ==>
      r == Err(if |stderr| == 0 then ProcessErrorCode(cmdPath, code) else ProcessErrorMessage(stderr))
    ensures code == Some(0) ==>
      (r.Ok? <==> push(s.receiver, []).Ok? && finish(push(s.receiver, []).value).Ok?)
    ensures code == Some(0) && r.Err? ==> r.error == AudioSegmentProcessingFailed
  {
    if code == Some(0) then
      match push(s.receiver, [])
      case Err(_) => Err(AudioSegmentProcessingFailed)
      case Ok(r1) =>
        match finish(r1)
        case Err(_) => Err(AudioSegmentProcessingFailed)
        case Ok(o) => Ok(o)
    else if |stderr| == 0 then Err(ProcessErrorCode(cmdPath, code))
    else Err(ProcessErrorMessage(stderr))
  }

  /** The reads of a whole stream, in order. A read of zero bytes ends the
      stream, so nothing after it is read; the first error stops them. */
  function Reads<R, E>(s: LoopState<R>, push: (R, seq<Sample>) -> Result<R, E>, pieces: seq<seq<Byte>>): Result<LoopState<R>, SampleError>
    decreases |pieces|
  {
    if |pieces| == 0 || |pieces[0]| == 0 then Ok(s)
    else match ReadRef(s, push, pieces[0])
      case Err(e) => Err(e)
      case Ok(s1) => Reads(s1, push, pieces[1..])
  }

  /** Reads that carry data: every read before the end of the stream. */
  predicate NonEmptyReads(pieces: seq<seq<Byte>>) {
    forall i :: 0 <= i < |pieces| ==> |pieces[i]| > 0
  }

  /** The whole decoding loop of `extract_audio_stream`: every read, then
      the end of the stream. */
  function Decode<R, O, E>(s: LoopState<R>, push: (R, seq<Sample>) -> Result<R, E>, finish: R -> Result<O, E>,
                           pieces: seq<seq<Byte>>, cmdPath: string, code: Option<int>, stderr: string): Result<O, SampleError> {
    match Reads(s, push, pieces)
    case Err(e) => Err(e)
    case Ok(s1) => EndOfStream(s1, push, finish, cmdPath, code, stderr)
  }

  /** The last step of `decode`: every error of the extraction, a receiver
      failure, an exit code or ffmpeg's stderr text alike, is replaced by
      `FailedExtractingAudio` naming the file and the ffmpeg command line;
      a success is passed on. */
  function ExtractAudio<R, O, E>(filePath: string, cmd: FFmpegRender.CmdWithArgs,
                                 s: LoopState<R>, push: (R, seq<Sample>) -> Result<R, E>, finish: R -> Result<O, E>,
                                 pieces: seq<seq<Byte>>, code: Option<int>, stderr: string): (r: Result<O, FFmpegMetadata.DecoderError>)
    ensures r.Ok? <==> Decode(s, push, finish, pieces, cmd.cmdPath, code, stderr).Ok?
    ensures r.Ok? ==> r.value == Decode(s, push, finish, pieces, cmd.cmdPath, code, stderr).value
    ensures r.Err? ==> r.error == FFmpegMetadata.FailedExtractingAudio(filePath, cmd)
  {
    match Decode(s, push, finish, pieces, cmd.cmdPath, code, stderr)
    case Err(_) => Err(FFmpegMetadata.FailedExtractingAudio(filePath, cmd))
    case Ok(o) => Ok(o)
  }

  /** The caller of `decode` cannot tell the extraction errors apart: a
      failing exit code with ffmpeg's message gives the same error as one
      without, whatever the code. */
  lemma ExtractAudioHidesCause<R, O, E>(filePath: string, cmd: FFmpegRender.CmdWithArgs,
                                        s: LoopState<R>, push: (R, seq<Sample>) -> Result<R, E>, finish: R -> Result<O, E>,
                                        pieces: seq<seq<Byte>>, code1: Option<int>, code2: Option<int>, stderr1: string, stderr2: string)
    requires code1 != Some(0) && code2 != Some(0)
    ensures ExtractAudio(filePath, cmd, s, push, finish, pieces, code1, stderr1)
         == ExtractAudio(filePath, cmd, s, push, finish, pieces, code2, stderr2)
  {
  }

  /** A read of no bytes changes nothing. */
  lemma ReadRefEmpty<R, E>(s: LoopState<R>, push: (R, seq<Sample>) -> Result<R, E>)
    ensures ReadRef(s, push, []) == Ok(s)
  {
    assert Singletons([]) == [];
  }

  /** However the pipe splits the stream into reads of data, the loop ends
      as one read of all the bytes would. */
  lemma {:induction false} ReadsFlatten<R, E>(s: LoopState<R>, push: (R, seq<Sample>) -> Result<R, E>, pieces: seq<seq<Byte>>)
    requires NonEmptyReads(pieces)
    ensures Reads(s, push, pieces) == ReadRef(s, push, Flatten(pieces))
    decreases |pieces|
  {
    if |pieces| == 0 {
      ReadRefEmpty(s, push);
    } else {
      assert |pieces[0]| > 0;
      ReadRefAppend(s, push, pieces[0], Flatten(pieces[1..]));
      match ReadRef(s, push, pieces[0])
      case Err(_) =>
      case Ok(s1) =>
        assert NonEmptyReads(pieces[1..]) by {
          forall i | 0 <= i < |pieces[1..]| ensures |pieces[1..][i]| > 0 {
            assert pieces[1..][i] == pieces[i + 1];
          }
        }
        ReadsFlatten(s1, push, pieces[1..]);
    }
  }

  /** A read of zero bytes ends the stream: whatever the pipe would yield
      after it is never read. */
  lemma {:induction false} ReadsStopAtEnd<R, E>(s: LoopState<R>, push: (R, seq<Sample>) -> Result<R, E>,
                                                pieces: seq<seq<Byte>>, more: seq<seq<Byte>>)
    ensures Reads(s, push, pieces + [[]] + more) == Reads(s, push, pieces)
    decreases |pieces|
  {
    var all := pieces + [[]] + more;
    if |pieces| == 0 {
      assert all[0] == [];
    } else {
      assert all[0] == pieces[0];
      if |pieces[0]| > 0 {
        assert all[1..] == pieces[1..] + [[]] + more;
        match ReadRef(s, push, pieces[0])
        case Err(_) =>
        case Ok(s1) => ReadsStopAtEnd(s1, push, pieces[1..], more);
      }
    }
  }

  /** Decoding an `s16le` stream of the samples `xs`, split into reads of
      data in any way, pushes exactly `xs`, one sample at a time, leaves the parser
      with no byte pending and counts the progress of `|xs|` samples. */
  lemma DecodeEncodedStream<R, E>(r: R, push: (R, seq<Sample>) -> Result<R, E>, pieces: seq<seq<Byte>>, xs: seq<Sample>)
    requires NonEmptyReads(pieces) && Flatten(pieces) == Encode(xs)
    ensures Reads(LoopState(Start, 0, 0, r), push, pieces)
         == match SinkFeed(push, r, Singletons(xs))
            case Err(_) => Err(AudioSegmentProcessingFailed)
            case Ok(r1) => Ok(LoopState(Start, Prescale(0, |xs|).0, Prescale(0, |xs|).1, r1))
  {
    ReadsFlatten(LoopState(Start, 0, 0, r), push, pieces);
    DecodeEncoded(xs);
  }
}
