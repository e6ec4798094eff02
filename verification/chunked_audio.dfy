/** `ChunkedAudioReceiver` of video_decoder.rs: an audio receiver that
    copies incoming samples into a fixed-size buffer and forwards the
    buffer to the next receiver each time it is full.

    The next receiver is abstract: its state `R` and its `push_samples`
    as a function that either returns the receiver's new state or fails
    with an error `E`. */
module ChunkedAudio {
  import opened Wrappers
  import opened Arith

  /** An `i16` audio sample. */
  type Sample = x: int | -0x8000 <= x < 0x8000

  /** The receiver: the buffer (its length is the chunk size), how many of
      its leading samples are pending, and the next receiver's state. */
  datatype ChunkedReceiver<R> = ChunkedReceiver(buffer: seq<Sample>, filled: nat, next: R)
  {
    /** The samples received but not yet forwarded. */
    function Pending(): seq<Sample>
      requires filled <= |buffer|
    {
      buffer[..filled]
    }
  }

  /** `ChunkedAudioReceiver::new`: a buffer of `size` zeros, nothing pending.
      `push_samples` asserts that the buffer has room, so only `size >= 1`
      gives a receiver that can be pushed to. */
  function New<R>(size: nat, next: R): (c: ChunkedReceiver<R>)
    ensures |c.buffer| == size && c.next == next && c.filled == 0
    ensures c.Pending() == []
    ensures forall i :: 0 <= i < size ==> c.buffer[i] == 0
    ensures c.filled < |c.buffer| <==> size >= 1
  {
    ChunkedReceiver(seq(size, _ => 0), 0, next)
  }

  /** The full chunks of `xs`, `n` samples each, in order; the remainder
      shorter than `n` is not part of any chunk. */
  function ChunksOf<T>(xs: seq<T>, n: nat): seq<seq<T>>
    requires n >= 1
    decreases |xs|
  {
    if |xs| < n then [] else [xs[..n]] + ChunksOf(xs[n..], n)
  }

  /** What is left of `xs` after its full chunks. */
  function Rem<T>(xs: seq<T>, n: nat): seq<T>
    requires n >= 1
    decreases |xs|
  {
    if |xs| < n then xs else Rem(xs[n..], n)
  }

  function Flatten<T>(cs: seq<seq<T>>): seq<T>
    decreases |cs|
  {
    if |cs| == 0 then [] else cs[0] + Flatten(cs[1..])
  }

  /** The next receiver fed every chunk in order; the first error stops it. */
  function SinkFeed<R, E>(push: (R, seq<Sample>) -> Result<R, E>, r: R, chunks: seq<seq<Sample>>): Result<R, E>
    decreases |chunks|
  {
    if |chunks| == 0 then Ok(r)
    else match push(r, chunks[0])
      case Err(e) => Err(e)
      case Ok(r1) => SinkFeed(push, r1, chunks[1..])
  }

  /** The reference behaviour of one push: with `pending` samples already
      buffered, pushing `xs` forwards the full chunks of `pending + xs` and
      leaves their remainder pending, or fails with the next receiver's
      first error. */
  function PushRef<R, E>(n: nat, pending: seq<Sample>, r: R, push: (R, seq<Sample>) -> Result<R, E>, xs: seq<Sample>)
    : Result<(seq<Sample>, R), E>
    requires n >= 1
  {
    match SinkFeed(push, r, ChunksOf(pending + xs, n))
    case Err(e) => Err(e)
    case Ok(r1) => Ok((Rem(pending + xs, n), r1))
  }

  /** `push_samples`: copy as many samples as fit, forward the buffer when it
      is full, repeat until the slice is used up. It forwards exactly the
      full chunks of the pending samples followed by `samples`, keeps their
      remainder pending, leaves room in the buffer, and passes the next
      receiver's first error through unchanged. An empty push changes
      nothing. */
  method PushSamples<R, E>(c: ChunkedReceiver<R>, push: (R, seq<Sample>) -> Result<R, E>, samples: seq<Sample>)
    returns (res: Result<ChunkedReceiver<R>, E>)
    requires c.filled < |c.buffer|
    ensures match PushRef(|c.buffer|, c.Pending(), c.next, push, samples)
      case Err(e) => res == Err(e)
      case Ok(p) => res.Ok? && |res.value.buffer| == |c.buffer| && res.value.filled < |c.buffer|
                    && res.value.Pending() == p.0 && res.value.next == p.1
    ensures |samples| == 0 ==> res == Ok(c)
  {
    var n := |c.buffer|;
    var buf := c.buffer;
    var filled: nat := c.filled;
    var r := c.next;
    var pos := 0;
    ghost var all := c.Pending() + samples;
    assert samples[0..] == samples;
    while pos < |samples|
      invariant 0 <= pos <= |samples|
      invariant |buf| == n
      invariant filled < n
      invariant SinkFeed(push, c.next, ChunksOf(all, n)) == SinkFeed(push, r, ChunksOf(buf[..filled] + samples[pos..], n))
      invariant Rem(all, n) == Rem(buf[..filled] + samples[pos..], n)
      invariant pos == 0 ==> buf == c.buffer && filled == c.filled && r == c.next
      decreases |samples| - pos
    {
      var count := Min(n - filled, |samples| - pos);
      ghost var pending := buf[..filled] + samples[pos..];
      buf := buf[..filled] + samples[pos..pos + count] + buf[filled + count..];
      pos := pos + count;
      filled := filled + count;
      assert buf[..filled] + samples[pos..] == pending;
      if filled == n {
        assert buf[..filled] == buf;
        ChunksUnfold(buf, samples[pos..]);
        var out := push(r, buf);
        if out.Err? {
          return Err(out.error);
        }
        r := out.value;
        filled := 0;
        assert buf[..filled] + samples[pos..] == samples[pos..];
      }
    }
    assert buf[..filled] + samples[pos..] == buf[..filled];
    return Ok(ChunkedReceiver(buf, filled, r));
  }

  lemma ChunksUnfold<T>(chunk: seq<T>, rest: seq<T>)
    requires |chunk| >= 1
    ensures ChunksOf(chunk + rest, |chunk|) == [chunk] + ChunksOf(rest, |chunk|)
    ensures Rem(chunk + rest, |chunk|) == Rem(rest, |chunk|)
  {
    assert (chunk + rest)[..|chunk|] == chunk;
    assert (chunk + rest)[|chunk|..] == rest;
  }

  /** `finish` hands over to the next receiver's `finish`; the pending samples
      are never forwarded. */
  function Finish<R, O, E>(c: ChunkedReceiver<R>, finish: R -> Result<O, E>): Result<O, E> {
    finish(c.next)
  }

  /** The chunks are full, there are as many as `n` goes into `|xs|` with a
      remainder shorter than `n`, and chunks followed by the remainder give
      back `xs` in order: nothing is lost or reordered. */
  lemma ChunksShape<T>(xs: seq<T>, n: nat)
    requires n >= 1
    ensures forall i :: 0 <= i < |ChunksOf(xs, n)| ==> |ChunksOf(xs, n)[i]| == n
    ensures |ChunksOf(xs, n)| * n + |Rem(xs, n)| == |xs|
    ensures |Rem(xs, n)| < n
    ensures Flatten(ChunksOf(xs, n)) + Rem(xs, n) == xs
  {
    ChunksFull(xs, n);
    ChunksCount(xs, n);
    ChunksFlatten(xs, n);
  }

  lemma {:induction false} ChunksFull<T>(xs: seq<T>, n: nat)
    requires n >= 1
    ensures forall i :: 0 <= i < |ChunksOf(xs, n)| ==> |ChunksOf(xs, n)[i]| == n
    decreases |xs|
  {
    if |xs| >= n {
      ChunksFull(xs[n..], n);
      assert ChunksOf(xs, n) == [xs[..n]] + ChunksOf(xs[n..], n);
    }
  }

  lemma {:induction false} ChunksCount<T>(xs: seq<T>, n: nat)
    requires n >= 1
    ensures |ChunksOf(xs, n)| * n + |Rem(xs, n)| == |xs|
    ensures |Rem(xs, n)| < n
    decreases |xs|
  {
    if |xs| >= n {
      var rest := xs[n..];
      ChunksCount(rest, n);
      var k := |ChunksOf(rest, n)|;
      assert |ChunksOf(xs, n)| == k + 1;
      assert (k + 1) * n == k * n + n;
    }
  }

  lemma {:induction false} ChunksFlatten<T>(xs: seq<T>, n: nat)
    requires n >= 1
    ensures Flatten(ChunksOf(xs, n)) + Rem(xs, n) == xs
    decreases |xs|
  {
    if |xs| >= n {
      var rest := xs[n..];
      ChunksFlatten(rest, n);
      assert ChunksOf(xs, n) == [xs[..n]] + ChunksOf(rest, n);
      assert Flatten(ChunksOf(xs, n)) == xs[..n] + Flatten(ChunksOf(rest, n));
      assert xs[..n] + (Flatten(ChunksOf(rest, n)) + Rem(rest, n)) == xs;
    } else {
      assert Flatten(ChunksOf(xs, n)) == [];
    }
  }

  /** Chunking `xs + ys` chunks `xs`, then its remainder followed by `ys`. */
  lemma {:induction false} ChunksAppend<T>(xs: seq<T>, ys: seq<T>, n: nat)
    requires n >= 1
    ensures ChunksOf(xs + ys, n) == ChunksOf(xs, n) + ChunksOf(Rem(xs, n) + ys, n)
    ensures Rem(xs + ys, n) == Rem(Rem(xs, n) + ys, n)
    decreases |xs|
  {
    if |xs| >= n {
      assert (xs + ys)[..n] == xs[..n];
      assert (xs + ys)[n..] == xs[n..] + ys;
      ChunksAppend(xs[n..], ys, n);
    }
  }

  /** Feeding two chunk lists in a row is feeding their concatenation. */
  lemma {:induction false} SinkFeedAppend<R, E>(push: (R, seq<Sample>) -> Result<R, E>, r: R, a: seq<seq<Sample>>, b: seq<seq<Sample>>)
    ensures SinkFeed(push, r, a + b)
         == match SinkFeed(push, r, a) case Err(e) => Err(e) case Ok(r1) => SinkFeed(push, r1, b)
    decreases |a|
  {
    if |a| == 0 {
      assert a + b == b;
    } else {
      assert (a + b)[0] == a[0];
      assert (a + b)[1..] == a[1..] + b;
      match push(r, a[0])
      case Err(e) =>
      case Ok(r1) => SinkFeedAppend(push, r1, a[1..], b);
    }
  }

  /** Chunking is independent of how the samples are split into pushes:
      pushing `xs` and then `ys` is pushing `xs + ys`. */
  lemma PushRefAppend<R, E>(n: nat, pending: seq<Sample>, r: R, push: (R, seq<Sample>) -> Result<R, E>, xs: seq<Sample>, ys: seq<Sample>)
    requires n >= 1
    ensures PushRef(n, pending, r, push, xs + ys)
         == match PushRef(n, pending, r, push, xs)
            case Err(e) => Err(e)
            case Ok(p) => PushRef(n, p.0, p.1, push, ys)
  {
    assert pending + (xs + ys) == (pending + xs) + ys;
    ChunksAppend(pending + xs, ys, n);
    SinkFeedAppend(push, r, ChunksOf(pending + xs, n), ChunksOf(Rem(pending + xs, n) + ys, n));
  }

  /** A next receiver that records every chunk it is given. */
  function Record<E>(log: seq<seq<Sample>>, chunk: seq<Sample>): Result<seq<seq<Sample>>, E> {
    Ok(log + [chunk])
  }

  lemma {:induction false} RecordFeed<E>(log: seq<seq<Sample>>, chunks: seq<seq<Sample>>)
    ensures SinkFeed(Record<E>, log, chunks) == Ok(log + chunks)
    decreases |chunks|
  {
    if |chunks| > 0 {
      assert Record<E>(log, chunks[0]) == Ok(log + [chunks[0]]);
      RecordFeed<E>(log + [chunks[0]], chunks[1..]);
      assert log + [chunks[0]] + chunks[1..] == log + chunks;
    } else {
      assert log + chunks == log;
    }
  }

  /** Pushing `xs` into a new receiver of size `n` in front of a recording
      receiver: the recorded chunks are full and together are `xs` without
      its last `r < n` samples, which stay pending and which `finish` never
      delivers. */
  lemma RecordedDelivery<E>(n: nat, xs: seq<Sample>)
    requires n >= 1
    ensures var c := New<seq<seq<Sample>>>(n, []);
      var res := PushRef(n, c.Pending(), c.next, Record<E>, xs);
      res.Ok?
      && (forall i :: 0 <= i < |res.value.1| ==> |res.value.1[i]| == n)
      && |res.value.0| < n && |res.value.1| * n + |res.value.0| == |xs|
      && Flatten(res.value.1) == xs[..|xs| - |res.value.0|]
      && res.value.0 == xs[|xs| - |res.value.0|..]
      && (Flatten(res.value.1) == xs <==> |res.value.0| == 0)
  {
    assert New<seq<seq<Sample>>>(n, []).Pending() + xs == xs;
    RecordFeed<E>([], ChunksOf(xs, n));
    assert [] + ChunksOf(xs, n) == ChunksOf(xs, n);
    ChunksShape(xs, n);
    var k := |xs| - |Rem(xs, n)|;
    assert xs[..k] == Flatten(ChunksOf(xs, n));
    assert |Rem(xs, n)| == 0 ==> xs[..k] == xs;
  }
}
