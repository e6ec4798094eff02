/** The metadata decisions of `VideoDecoderFFmpegBinary::decode` in
    ffmpeg_binary.rs: how the probe's codec type strings are read, which
    audio stream is extracted, and where the duration comes from. The JSON
    decoding itself is not modelled; the records are its result. */
module FFmpegMetadata {
  import opened Wrappers
  import FFmpegRender

  datatype CodecType = Audio | Video | Subtitle | Other(name: string)

  /** A probed stream; the duration is still the probe's text. */
  datatype Stream = Stream(index: nat, channels: Option<nat>, duration: Option<string>, codecType: CodecType)

  datatype Format = Format(duration: Option<string>)

  /** The decoder errors these decisions and the audio extraction can raise;
      the extraction's failure names the file and the ffmpeg command line. */
  datatype DecoderError =
    | NoAudioStream(path: string)
    | NoDurationInformation
    | FailedExtractingAudio(filePath: string, cmd: FFmpegRender.CmdWithArgs)

  /** `CodecType::deserialize`: never fails; the three known names map to
      their variants and any other string is kept verbatim. */
  function ParseCodecType(s: string): (c: CodecType)
    ensures c == Audio <==> s == "audio"
    ensures c == Video <==> s == "video"
    ensures c == Subtitle <==> s == "subtitle"
    ensures c.Other? ==> c.name == s
  {
    match s
    case "audio" => Audio
    case "video" => Video
    case "subtitle" => Subtitle
    case _ => Other(s)
  }

  /** The probe's name of a codec type. */
  function CodecName(c: CodecType): string {
    match c
    case Audio => "audio"
    case Video => "video"
    case Subtitle => "subtitle"
    case Other(s) => s
  }

  /** Reading a codec type keeps the string: its name is the string read. */
  lemma ParseCodecTypeKeepsName(s: string)
    ensures CodecName(ParseCodecType(s)) == s
  {
  }

  /** Every codec type whose name is not one of the three known names is
      read back from its name. */
  lemma ParseCodecName(c: CodecType)
    requires c.Other? ==> c.name !in {"audio", "video", "subtitle"}
    ensures ParseCodecType(CodecName(c)) == c
  {
  }

  /** The filter of `decode`'s stream selection: an audio stream with a
      known channel count. */
  predicate IsCandidate(s: Stream) {
    s.codecType == Audio && s.channels.Some?
  }

  function Candidates(streams: seq<Stream>): (r: seq<Stream>)
    ensures forall x :: x in r <==> x in streams && IsCandidate(x)
    ensures forall j :: 0 <= j < |r| ==> IsCandidate(r[j])
    ensures |r| <= |streams|
    decreases |streams|
  {
    if |streams| == 0 then []
    else if IsCandidate(streams[0]) then [streams[0]] + Candidates(streams[1..])
    else Candidates(streams[1..])
  }

  /** `min_by_key` on the channel count: the first stream of least count. */
  function MinByChannels(cs: seq<Stream>): (i: nat)
    requires |cs| > 0
    requires forall j :: 0 <= j < |cs| ==> cs[j].channels.Some?
    ensures i < |cs|
    ensures forall j :: 0 <= j < |cs| ==> cs[i].channels.value <= cs[j].channels.value
    ensures forall j :: 0 <= j < i ==> cs[i].channels.value < cs[j].channels.value
    decreases |cs|
  {
    if |cs| == 1 then 0
    else
      var k := MinByChannels(cs[1..]) + 1;
      if cs[k].channels.value < cs[0].channels.value then k else 0
  }

  /** `find` on the stream index: the first stream with index `ai`. */
  function FindIndex(cs: seq<Stream>, ai: nat): (r: Option<nat>)
    ensures r.Some? ==> r.value < |cs| && cs[r.value].index == ai
                        && forall j :: 0 <= j < r.value ==> cs[j].index != ai
    ensures r.None? <==> forall j :: 0 <= j < |cs| ==> cs[j].index != ai
    decreases |cs|
  {
    if |cs| == 0 then None
    else if cs[0].index == ai then Some(0)
    else match FindIndex(cs[1..], ai)
      case None => None
      case Some(k) => Some(k + 1)
  }

  /** The stream selection of `decode`. Without an index the first
      candidate of least channel count is taken; with index `ai` the first
      candidate with that index. No such candidate is `NoAudioStream`. */
  function SelectStream(path: string, streams: seq<Stream>, audioIndex: Option<nat>): (r: Result<Stream, DecoderError>)
    ensures r.Err? ==> r == Err(NoAudioStream(path))
    ensures r.Ok? ==> r.value in streams && IsCandidate(r.value)
    ensures audioIndex.None? ==> (r.Ok? <==> exists x :: x in streams && IsCandidate(x))
    ensures audioIndex.None? && r.Ok? ==> forall x :: x in streams && IsCandidate(x) ==> r.value.channels.value <= x.channels.value
    ensures audioIndex.Some? ==> (r.Ok? <==> exists x :: x in streams && IsCandidate(x) && x.index == audioIndex.value)
    ensures audioIndex.Some? && r.Ok? ==> r.value.index == audioIndex.value
    ensures audioIndex.None? && r.Ok? ==>
      exists i :: 0 <= i < |streams| && streams[i] == r.value
        && forall j :: 0 <= j < i && IsCandidate(streams[j]) ==> streams[j].channels.value > r.value.channels.value
    ensures audioIndex.Some? && r.Ok? ==>
      exists i :: 0 <= i < |streams| && streams[i] == r.value
        && forall j :: 0 <= j < i && IsCandidate(streams[j]) ==> streams[j].index != audioIndex.value
  {
    var cs := Candidates(streams);
    match audioIndex
    case None =>
      if |cs| == 0 then Err(NoAudioStream(path))
      else
        var i := MinByChannels(cs);
        assert cs[i] in cs;
        FirstLeast(streams, i);
        Ok(cs[i])
    case Some(ai) =>
      match FindIndex(cs, ai)
      case None => Err(NoAudioStream(path))
      case Some(i) =>
        assert cs[i] in cs;
        FirstWithIndex(streams, i, ai);
        Ok(cs[i])
  }

  /** The candidate at position `k` stands in `streams` at a place `i`
      before which the candidates are exactly the first `k` candidates. */
  lemma {:induction false} CandidatePosition(streams: seq<Stream>, k: nat) returns (i: nat)
    requires k < |Candidates(streams)|
    ensures i < |streams| && streams[i] == Candidates(streams)[k]
    ensures Candidates(streams[..i]) == Candidates(streams)[..k]
    decreases |streams|
  {
    if IsCandidate(streams[0]) && k == 0 {
      CandidatesCons(streams, 1);
      i := 0;
      assert Candidates(streams[..0]) == [];
    } else {
      var k' := if IsCandidate(streams[0]) then k - 1 else k;
      CandidatesCons(streams, 1);
      CandidatesShift(streams, k, k');
      var i' := CandidatePosition(streams[1..], k');
      i := i' + 1;
      CandidatePositionStep(streams, k, k', i');
    }
  }

  /** The step of `CandidatePosition`: a position found in the rest of the
      streams, one further on, is the position in the whole sequence. */
  lemma CandidatePositionStep(streams: seq<Stream>, k: nat, k': nat, i': nat)
    requires |streams| > 0 && k < |Candidates(streams)|
    requires k' == if IsCandidate(streams[0]) then k - 1 else k
    requires k' < |Candidates(streams[1..])| && Candidates(streams)[k] == Candidates(streams[1..])[k']
    requires Candidates(streams)[..k] == (if IsCandidate(streams[0]) then [streams[0]] else []) + Candidates(streams[1..])[..k']
    requires i' < |streams[1..]| && streams[1..][i'] == Candidates(streams[1..])[k']
    requires Candidates(streams[1..][..i']) == Candidates(streams[1..])[..k']
    ensures streams[i' + 1] == Candidates(streams)[k]
    ensures Candidates(streams[..i' + 1]) == Candidates(streams)[..k]
  {
    CandidatesCons(streams, i' + 1);
  }


  /** Dropping the first stream shifts the candidate positions by one when
      it is a candidate. */
  lemma CandidatesShift(streams: seq<Stream>, k: nat, k': nat)
    requires |streams| > 0 && k < |Candidates(streams)|
    requires Candidates(streams) == (if IsCandidate(streams[0]) then [streams[0]] else []) + Candidates(streams[1..])
    requires k' == if IsCandidate(streams[0]) then k - 1 else k
    requires IsCandidate(streams[0]) ==> k > 0
    ensures k' < |Candidates(streams[1..])| && Candidates(streams)[k] == Candidates(streams[1..])[k']
    ensures Candidates(streams)[..k] == (if IsCandidate(streams[0]) then [streams[0]] else []) + Candidates(streams[1..])[..k']
  {
  }

  /** The candidates of a non-empty prefix: the first stream, if it is one,
      then the candidates of the rest of the prefix. */
  lemma CandidatesCons(streams: seq<Stream>, n: nat)
    requires 0 < n <= |streams|
    ensures Candidates(streams) == (if IsCandidate(streams[0]) then [streams[0]] else []) + Candidates(streams[1..])
    ensures Candidates(streams[..n])
         == (if IsCandidate(streams[0]) then [streams[0]] else []) + Candidates(streams[1..][..n - 1])
  {
    assert streams[..n][0] == streams[0];
    assert streams[..n][1..] == streams[1..][..n - 1];
  }

  /** A candidate before position `i` of `streams` is among the candidates
      of the prefix. */
  lemma EarlierCandidate(streams: seq<Stream>, i: nat, j: nat)
    requires j < i <= |streams| && IsCandidate(streams[j])
    ensures streams[j] in Candidates(streams[..i])
  {
    assert streams[..i][j] == streams[j];
  }

  /** The stream `min_by_key` picks comes before every other candidate with
      as few channels. */
  lemma FirstLeast(streams: seq<Stream>, k: nat)
    requires |Candidates(streams)| > 0 && k == MinByChannels(Candidates(streams))
    ensures exists i :: 0 <= i < |streams| && streams[i] == Candidates(streams)[k]
                        && forall j :: 0 <= j < i && IsCandidate(streams[j]) ==> streams[j].channels.value > Candidates(streams)[k].channels.value
  {
    var cs := Candidates(streams);
    var i := CandidatePosition(streams, k);
    forall j | 0 <= j < i && IsCandidate(streams[j])
      ensures streams[j].channels.value > cs[k].channels.value
    {
      EarlierCandidate(streams, i, j);
      var m :| 0 <= m < k && cs[..k][m] == streams[j];
      assert cs[m] == streams[j];
    }
  }

  /** The stream `find` picks comes before every other candidate with the
      same index. */
  lemma FirstWithIndex(streams: seq<Stream>, k: nat, ai: nat)
    requires k < |Candidates(streams)| && FindIndex(Candidates(streams), ai) == Some(k)
    ensures exists i :: 0 <= i < |streams| && streams[i] == Candidates(streams)[k]
                        && forall j :: 0 <= j < i && IsCandidate(streams[j]) ==> streams[j].index != ai
  {
    var cs := Candidates(streams);
    var i := CandidatePosition(streams, k);
    forall j | 0 <= j < i && IsCandidate(streams[j])
      ensures streams[j].index != ai
    {
      EarlierCandidate(streams, i, j);
      var m :| 0 <= m < k && cs[..k][m] == streams[j];
      assert cs[m] == streams[j];
    }
  }

  /** The duration text of `decode`: the stream's own duration, else
      the container format's, else `NoDurationInformation`. */
  function DurationText(best: Stream, format: Option<Format>): (r: Result<string, DecoderError>)
    ensures r.Err? <==> best.duration.None? && (format.None? || format.value.duration.None?)
    ensures r.Err? ==> r.error == NoDurationInformation
    ensures best.duration.Some? ==> r == Ok(best.duration.value)
    ensures best.duration.None? && r.Ok? ==> r.value == format.value.duration.value
  {
    match best.duration
    case Some(d) => Ok(d)
    case None =>
      match format
      case Some(Format(Some(d))) => Ok(d)
      case _ => Err(NoDurationInformation)
  }

  /** The container's duration is used only when the stream has none: if the
      stream carries a duration, the format does not matter. */
  lemma StreamDurationFirst(best: Stream, f1: Option<Format>, f2: Option<Format>)
    requires best.duration.Some?
    ensures DurationText(best, f1) == DurationText(best, f2)
  {
  }
}
