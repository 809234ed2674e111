/** Muxing and then demuxing gives back the frame list. */
module RoundTrip {
  import opened Media
  import opened SampleTable
  import opened SampleTableFacts
  import opened Muxer
  import opened MuxerFacts
  import opened Demuxer
  import opened DemuxerFacts

  // ----- The muxed file -----

  /** Header h is that of frame i, at its true place in the file. */
  ghost predicate Describes(h: FrameHeader, frames: seq<MediaFrame>, i: nat, base: nat)
    requires i < |frames|
  {
    && h.offset == base + Position(frames, i)
    && h.size == frames[i].size
    && h.frameType == (if frames[i].isAudio then AudioFrame else VideoFrame)
    && h.keyframe == (!frames[i].isAudio && frames[i].keyframe)
  }

  ghost predicate TrackDescribed(headers: seq<FrameHeader>, frames: seq<MediaFrame>, p: seq<nat>, base: nat)
    requires Within(p, |frames|)
  {
    |headers| == |p| && forall k :: 0 <= k < |p| ==> Describes(headers[k], frames, p[k], base)
  }

  /** Every frame of size 0 has a frame behind it, and if it is an audio frame, that is
      one too. */
  predicate Distinguishable(frames: seq<MediaFrame>) {
    forall i :: 0 <= i < |frames| && frames[i].size == 0 ==>
      i + 1 < |frames| && (frames[i].isAudio ==> frames[i + 1].isAudio)
  }

  lemma {:induction false} PositionsOrdered(frames: seq<MediaFrame>, i: nat, j: nat)
    requires i < j <= |frames|
    ensures Position(frames, i) + frames[i].size <= Position(frames, j)
  {
    if i + 1 < j {
      PositionsOrdered(frames, i, j - 1);
    }
  }

  /** Positions of the frames of one track from frame m on. */
  function PickFrom(frames: seq<MediaFrame>, m: nat, audio: bool): (p: seq<nat>)
    requires m <= |frames|
    ensures forall k :: 0 <= k < |p| ==> m <= p[k] < |frames|
    decreases |frames| - m
  {
    if m == |frames| then []
    else (if frames[m].isAudio == audio then [m] else []) + PickFrom(frames, m + 1, audio)
  }

  lemma PickStep(frames: seq<MediaFrame>, m: nat, audio: bool)
    requires m < |frames|
    ensures Pick(frames[..m + 1], audio) == Pick(frames[..m], audio) + if frames[m].isAudio == audio then [m] else []
  {
    assert frames[..m + 1][..m] == frames[..m];
  }

  lemma {:induction false} PickSplits(frames: seq<MediaFrame>, m: nat, audio: bool)
    requires m <= |frames|
    ensures Pick(frames, audio) == Pick(frames[..m], audio) + PickFrom(frames, m, audio)
    decreases |frames| - m
  {
    if m == |frames| {
      assert frames[..m] == frames;
      assert Pick(frames, audio) + [] == Pick(frames, audio);
    } else {
      PickSplits(frames, m + 1, audio);
      PickStep(frames, m, audio);
      Reassociate(Pick(frames[..m], audio), if frames[m].isAudio == audio then [m] else [],
                  PickFrom(frames, m + 1, audio));
    }
  }

  lemma PickFromStart(frames: seq<MediaFrame>, audio: bool)
    ensures PickFrom(frames, 0, audio) == Pick(frames, audio)
  {
    PickSplits(frames, 0, audio);
    assert Pick(frames[..0], audio) + PickFrom(frames, 0, audio) == PickFrom(frames, 0, audio);
  }

  /** The merged headers describe the frames from m on, in list order. */
  ghost predicate AllDescribed(headers: seq<FrameHeader>, frames: seq<MediaFrame>, m: nat, base: nat)
    requires m <= |frames|
  {
    |headers| == |frames| - m && forall k :: 0 <= k < |headers| ==> Describes(headers[k], frames, m + k, base)
  }

  lemma PrependDescribed(h: FrameHeader, rest: seq<FrameHeader>, frames: seq<MediaFrame>, m: nat, base: nat)
    requires m < |frames| && Describes(h, frames, m, base) && AllDescribed(rest, frames, m + 1, base)
    ensures AllDescribed([h] + rest, frames, m, base)
  {
    var all := [h] + rest;
    forall k | 0 <= k < |all| ensures Describes(all[k], frames, m + k, base) {
      if k > 0 {
        assert all[k] == rest[k - 1];
        assert Describes(rest[k - 1], frames, m + 1 + (k - 1), base);
      }
    }
  }

  lemma {:induction false} FirstPicked(frames: seq<MediaFrame>, m: nat, kind: bool)
    requires m <= |frames| && PickFrom(frames, m, kind) != []
    ensures var first := PickFrom(frames, m, kind)[0];
      frames[first].isAudio == kind && forall k :: m <= k < first ==> frames[k].isAudio != kind
    decreases |frames| - m
  {
    if frames[m].isAudio != kind {
      FirstPicked(frames, m + 1, kind);
    }
  }

  /** The other track's head does not lie before frame m, and behind it if that is an
      audio frame. */
  lemma OtherHeadBehind(frames: seq<MediaFrame>, m: nat, kind: bool, other: seq<FrameHeader>, base: nat)
    requires Distinguishable(frames) && m < |frames| && kind != frames[m].isAudio && other != []
    requires TrackDescribed(other, frames, PickFrom(frames, m, kind), base)
    ensures base + Position(frames, m) <= other[0].offset
    ensures frames[m].isAudio ==> base + Position(frames, m) < other[0].offset
  {
    var first := PickFrom(frames, m, kind)[0];
    assert Describes(other[0], frames, first, base);
    FirstPicked(frames, m, kind);
    PositionsOrdered(frames, m, first);
    PositionsOrdered(frames, first - 1, first);
    if m < first - 1 {
      PositionsOrdered(frames, m, first - 1);
    }
  }

  /** Frame m heads its own track, and the rest of that track describes what follows. */
  lemma OwnHead(frames: seq<MediaFrame>, m: nat, kind: bool, own: seq<FrameHeader>, base: nat)
    requires m < |frames| && kind == frames[m].isAudio
    requires TrackDescribed(own, frames, PickFrom(frames, m, kind), base)
    ensures own != [] && Describes(own[0], frames, m, base)
    ensures TrackDescribed(own[1..], frames, PickFrom(frames, m + 1, kind), base)
  {
    var p := PickFrom(frames, m, kind);
    assert p == [m] + PickFrom(frames, m + 1, kind);
    assert Describes(own[0], frames, p[0], base);
    TailDescribed(own, frames, p, base);
    assert p[1..] == PickFrom(frames, m + 1, kind);
  }

  lemma OtherUnmoved(frames: seq<MediaFrame>, m: nat, kind: bool, other: seq<FrameHeader>, base: nat)
    requires m < |frames| && kind != frames[m].isAudio
    requires TrackDescribed(other, frames, PickFrom(frames, m, kind), base)
    ensures TrackDescribed(other, frames, PickFrom(frames, m + 1, kind), base)
  {
    assert PickFrom(frames, m, kind) == PickFrom(frames, m + 1, kind);
  }

  lemma AudioFirst(frames: seq<MediaFrame>, m: nat, audio: seq<FrameHeader>, video: seq<FrameHeader>, base: nat)
    requires Distinguishable(frames) && m < |frames| && frames[m].isAudio
    requires TrackDescribed(audio, frames, PickFrom(frames, m, true), base)
    requires TrackDescribed(video, frames, PickFrom(frames, m, false), base)
    ensures audio != [] && Describes(audio[0], frames, m, base)
    ensures Merge(audio, video) == [audio[0]] + Merge(audio[1..], video)
  {
    OwnHead(frames, m, true, audio, base);
    if video != [] {
      OtherHeadBehind(frames, m, false, video, base);
    }
  }

  lemma VideoFirst(frames: seq<MediaFrame>, m: nat, audio: seq<FrameHeader>, video: seq<FrameHeader>, base: nat)
    requires Distinguishable(frames) && m < |frames| && !frames[m].isAudio
    requires TrackDescribed(audio, frames, PickFrom(frames, m, true), base)
    requires TrackDescribed(video, frames, PickFrom(frames, m, false), base)
    ensures video != [] && Describes(video[0], frames, m, base)
    ensures Merge(audio, video) == [video[0]] + Merge(audio, video[1..])
  {
    OwnHead(frames, m, false, video, base);
    if audio != [] {
      OtherHeadBehind(frames, m, true, audio, base);
    }
  }

  /** Merging by offset puts the frames back in list order: the frame that comes
      first in the list is the head of its track, and the other track's head, if
      any, lies further on. */
  lemma {:induction false} MergeFollowsList(
    frames: seq<MediaFrame>, m: nat, audio: seq<FrameHeader>, video: seq<FrameHeader>, base: nat)
    requires Distinguishable(frames) && m <= |frames|
    requires TrackDescribed(audio, frames, PickFrom(frames, m, true), base)
    requires TrackDescribed(video, frames, PickFrom(frames, m, false), base)
    ensures AllDescribed(Merge(audio, video), frames, m, base)
    decreases |frames| - m
  {
    if m == |frames| {
      assert audio == [] && video == [];
    } else if frames[m].isAudio {
      AudioFirst(frames, m, audio, video, base);
      OwnHead(frames, m, true, audio, base);
      OtherUnmoved(frames, m, false, video, base);
      MergeFollowsList(frames, m + 1, audio[1..], video, base);
      PrependDescribed(audio[0], Merge(audio[1..], video), frames, m, base);
    } else {
      VideoFirst(frames, m, audio, video, base);
      OwnHead(frames, m, false, video, base);
      OtherUnmoved(frames, m, true, audio, base);
      MergeFollowsList(frames, m + 1, audio, video[1..], base);
      PrependDescribed(video[0], Merge(audio, video[1..]), frames, m, base);
    }
  }

  lemma TailDescribed(headers: seq<FrameHeader>, frames: seq<MediaFrame>, p: seq<nat>, base: nat)
    requires Within(p, |frames|) && TrackDescribed(headers, frames, p, base) && p != []
    ensures TrackDescribed(headers[1..], frames, p[1..], base)
  {
  }

  function MuxedTrack(frames: seq<MediaFrame>, audio: bool, header: MediaHeader, base: nat): Track
    requires HasKind(frames, audio)
  {
    if audio then AudioTrack(frames, header, base) else VideoTrack(frames, header, base)
  }

  /** All but the offset of an extracted header is right; so it is the true header if
      and only if the offset is. */
  lemma DescribedAtIff(frames: seq<MediaFrame>, audio: bool, t: Track, base: nat, k: nat)
    requires var p := Pick(frames, audio); k < |p| && Accepted(t) && FrameCount(t) == |p|
    requires SizesListed(frames, Pick(frames, audio), t.stsz)
    requires t.stss == if audio then None else Some(IndexOf(frames, audio).keyframes)
    requires KeyframesListed(frames, audio, Pick(frames, audio), IndexOf(frames, audio).keyframes)
    ensures |Headers(t, audio)| == |Pick(frames, audio)|
    ensures var i := Pick(frames, audio)[k];
      Describes(Headers(t, audio)[k], frames, i, base) <==> OffsetOf(t, k) == base + Position(frames, i)
  {
    HeadersAt(t, audio, k);
    var i, h := Pick(frames, audio)[k], HeaderAt(t, audio, k);
    assert h.size == frames[i].size && h.offset == OffsetOf(t, k);
    assert h.keyframe == (!frames[i].isAudio && frames[i].keyframe);
  }

  lemma MuxedTrackTables(frames: seq<MediaFrame>, audio: bool, header: MediaHeader, base: nat)
    requires header.timescale > 0 && HasKind(frames, audio)
    ensures var t, p := MuxedTrack(frames, audio, header, base), Pick(frames, audio);
      && Accepted(t) && FrameCount(t) == |p| == |Headers(t, audio)| && SizesListed(frames, p, t.stsz)
      && t.stss == (if audio then None else Some(IndexOf(frames, audio).keyframes))
      && KeyframesListed(frames, audio, p, IndexOf(frames, audio).keyframes)
    ensures var t, p := MuxedTrack(frames, audio, header, base), Pick(frames, audio);
      ChunksFit(IndexOf(frames, audio).chunks, base) <==>
        forall k :: 0 <= k < |p| ==> OffsetOf(t, k) == base + Position(frames, p[k])
  {
    IndexIsFaithful(frames, audio);
    IndexPlaces(frames, audio);
    var index, p := IndexOf(frames, audio), Pick(frames, audio);
    var t := MuxedTrack(frames, audio, header, base);
    MuxedTrackAccepted(frames, p, index, header, base, t.stss);
    MuxedOffsetsIff(frames, p, index, t, base);
  }

  /** The headers extracted from a muxed track describe its frames, if and only if its
      chunk starts fit in 32 bits. */
  lemma ExtractedDescribesIff(frames: seq<MediaFrame>, audio: bool, header: MediaHeader, base: nat)
    requires header.timescale > 0 && HasKind(frames, audio)
    ensures var headers := Headers(MuxedTrack(frames, audio, header, base), audio);
      && |headers| == |Pick(frames, audio)|
      && (TrackDescribed(headers, frames, Pick(frames, audio), base) <==>
          ChunksFit(IndexOf(frames, audio).chunks, base))
  {
    MuxedTrackTables(frames, audio, header, base);
    var t, p := MuxedTrack(frames, audio, header, base), Pick(frames, audio);
    forall k | 0 <= k < |p|
      ensures Describes(Headers(t, audio)[k], frames, p[k], base) <==> OffsetOf(t, k) == base + Position(frames, p[k])
    {
      DescribedAtIff(frames, audio, t, base, k);
    }
  }

  /** What a muxed track says of times: n frames share the track's duration evenly, in
      whole clock ticks, and none is composed later than it is decoded. */
  lemma MuxedTimes(frames: seq<MediaFrame>, audio: bool, header: MediaHeader, base: nat, k: nat)
    requires header.timescale > 0 && HasKind(frames, audio)
    requires k < |Headers(MuxedTrack(frames, audio, header, base), audio)|
    ensures var n := |Pick(frames, audio)|; n > 0
    ensures var h := Headers(MuxedTrack(frames, audio, header, base), audio)[k];
      var delta := header.duration / |Pick(frames, audio)|;
      && IsQuotient(h.decodingTimestamp, k * delta * 1000, header.timescale)
      && IsQuotient(h.duration, delta * 1000, header.timescale)
      && h.compositionOffsetMs == 0 && h.sampleIndex == k * delta
  {
    var t := MuxedTrack(frames, audio, header, base);
    MuxedTrackTables(frames, audio, header, base);
    SizesNonEmpty(frames, audio);
    HeaderMeans(t, audio, k);
    var n, delta := |t.stsz|, header.duration / |t.stsz|;
    assert t.stts == [Run(n, delta)] && t.ctts == None;
    UniformRunSum(n, delta, k);
    RunSumIsEntrySum(t.stts, k);
    RunAtIsExpansion(t.stts, k);
    HeadersAt(t, audio, k);
  }

  lemma {:induction false} DescribedTiles(headers: seq<FrameHeader>, frames: seq<MediaFrame>, base: nat, n: nat)
    requires |headers| == |frames| && n <= |frames|
    requires forall i :: 0 <= i < |frames| ==> Describes(headers[i], frames, i, base)
    ensures Tiles(headers[n..], base + Position(frames, n), base + Total(frames))
    decreases |frames| - n
  {
    if n < |frames| {
      assert headers[n..][1..] == headers[n + 1..];
      DescribedTiles(headers, frames, base, n + 1);
    }
  }

  lemma LastIsPositive(frames: seq<MediaFrame>, i: nat)
    requires Distinguishable(frames) && i < |frames|
    ensures Position(frames, i) < Total(frames)
  {
    var n := |frames| - 1;
    PositionsOrdered(frames, n, n + 1);
    if i < n {
      PositionsOrdered(frames, i, n);
    }
  }

  lemma DescribedIsLaid(headers: seq<FrameHeader>, frames: seq<MediaFrame>, base: nat)
    requires |headers| == |frames| && Distinguishable(frames)
    requires forall i :: 0 <= i < |frames| ==> Describes(headers[i], frames, i, base)
    ensures Laid(headers, base, base + Total(frames)) && Tiles(headers, base, base + Total(frames))
  {
    forall i, j | 0 <= i < j <= |frames| ensures Position(frames, i) + frames[i].size <= Position(frames, j) {
      PositionsOrdered(frames, i, j);
    }
    forall i | 0 <= i < |frames| ensures Position(frames, i) < Total(frames) {
      LastIsPositive(frames, i);
    }
    DescribedTiles(headers, frames, base, 0);
    assert headers[0..] == headers;
  }

  /** The MDAT body of the frames, read along the headers from its start. */
  function WholeBody(headers: seq<FrameHeader>, frames: seq<MediaFrame>, base: nat): (s: Mdat)
    ensures s.InBounds()
  {
    Mdat(base, base + Total(frames), base, headers, 0, None)
  }

  lemma AllFromZero(headers: seq<FrameHeader>, frames: seq<MediaFrame>, base: nat)
    requires AllDescribed(headers, frames, 0, base)
    ensures forall i :: 0 <= i < |frames| ==> Describes(headers[i], frames, i, base)
  {
    forall i | 0 <= i < |frames| ensures Describes(headers[i], frames, i, base) {
      assert Describes(headers[i], frames, 0 + i, base);
    }
  }

  lemma LaidIsRead(headers: seq<FrameHeader>, begin: int, end: int)
    requires begin <= end && Laid(headers, begin, end) && Tiles(headers, begin, end)
    ensures Remaining(Mdat(begin, end, begin, headers, 0, None)) == headers
  {
    LaidFramesAllRead(Mdat(begin, end, begin, headers, 0, None));
  }

  lemma DescribedIsRead(headers: seq<FrameHeader>, frames: seq<MediaFrame>, base: nat)
    requires |headers| == |frames| && Distinguishable(frames)
    requires forall i :: 0 <= i < |frames| ==> Describes(headers[i], frames, i, base)
    ensures Remaining(WholeBody(headers, frames, base)) == headers
  {
    DescribedIsLaid(headers, frames, base);
    LaidIsRead(headers, base, base + Total(frames));
  }

  /** The merged index of a muxed file. */
  function MuxedHeaders(frames: seq<MediaFrame>, audioHeader: MediaHeader, videoHeader: MediaHeader, base: nat):
      seq<FrameHeader>
    requires HasKind(frames, true) && HasKind(frames, false)
  {
    Merge(Headers(MuxedTrack(frames, true, audioHeader, base), true),
          Headers(MuxedTrack(frames, false, videoHeader, base), false))
  }

  /** Every chunk start of both tracks can be stored. */
  predicate BothFit(frames: seq<MediaFrame>, base: nat) {
    ChunksFit(IndexOf(frames, true).chunks, base) && ChunksFit(IndexOf(frames, false).chunks, base)
  }

  /** A muxed track's headers describe its frames from the first on. */
  lemma TrackFromStartIff(frames: seq<MediaFrame>, audio: bool, header: MediaHeader, base: nat)
    requires header.timescale > 0 && HasKind(frames, audio)
    ensures var headers := Headers(MuxedTrack(frames, audio, header, base), audio);
      && |headers| == |PickFrom(frames, 0, audio)|
      && (TrackDescribed(headers, frames, PickFrom(frames, 0, audio), base) <==>
          ChunksFit(IndexOf(frames, audio).chunks, base))
  {
    ExtractedDescribesIff(frames, audio, header, base);
    PickFromStart(frames, audio);
  }

  /** The merged index of a muxed file describes every frame of the list, in order. */
  lemma MuxedIndex(frames: seq<MediaFrame>, audioHeader: MediaHeader, videoHeader: MediaHeader, base: nat)
    requires audioHeader.timescale > 0 && videoHeader.timescale > 0
    requires HasKind(frames, true) && HasKind(frames, false)
    requires Distinguishable(frames) && BothFit(frames, base)
    ensures AllDescribed(MuxedHeaders(frames, audioHeader, videoHeader, base), frames, 0, base)
  {
    TrackFromStartIff(frames, true, audioHeader, base);
    TrackFromStartIff(frames, false, videoHeader, base);
    MergeFollowsList(frames, 0, Headers(MuxedTrack(frames, true, audioHeader, base), true),
                     Headers(MuxedTrack(frames, false, videoHeader, base), false), base);
  }

  /** For every list of distinguishable frames with both kinds present, and every
      place of the MDAT body that the 32-bit index can express: the tables built
      for the list, walked, merged and used to cut the body, give back one header
      per frame, in order, with the frame's place, size, kind and keyframe flag,
      and no filler. */
  lemma MuxThenDemux(frames: seq<MediaFrame>, audioHeader: MediaHeader, videoHeader: MediaHeader, base: nat)
      returns (merged: seq<FrameHeader>)
    requires audioHeader.timescale > 0 && videoHeader.timescale > 0
    requires HasKind(frames, true) && HasKind(frames, false)
    requires Distinguishable(frames) && BothFit(frames, base)
    ensures merged == MuxedHeaders(frames, audioHeader, videoHeader, base)
    ensures |merged| == |frames| && forall i :: 0 <= i < |frames| ==> Describes(merged[i], frames, i, base)
    ensures Remaining(WholeBody(merged, frames, base)) == merged
  {
    merged := MuxedHeaders(frames, audioHeader, videoHeader, base);
    MuxedIndex(frames, audioHeader, videoHeader, base);
    AllFromZero(merged, frames, base);
    DescribedIsRead(merged, frames, base);
  }

  /** What a reader sees of a frame. */
  datatype Seen = Seen(frameType: FrameType, offset: int, size: nat, keyframe: bool)

  function SeenOf(headers: seq<FrameHeader>): (r: seq<Seen>)
    ensures |r| == |headers|
  {
    seq(|headers|, i requires 0 <= i < |headers| =>
      Seen(headers[i].frameType, headers[i].offset, headers[i].size, headers[i].keyframe))
  }

  /** The frames as the muxer was given them; keyframes are a matter of video only. */
  function Originals(frames: seq<MediaFrame>, base: nat): (r: seq<Seen>)
    ensures |r| == |frames|
  {
    seq(|frames|, i requires 0 <= i < |frames| =>
      Seen(if frames[i].isAudio then AudioFrame else VideoFrame, base + Position(frames, i), frames[i].size,
           !frames[i].isAudio && frames[i].keyframe))
  }

  lemma SeenWhenDescribed(headers: seq<FrameHeader>, frames: seq<MediaFrame>, base: nat)
    requires |headers| == |frames| && forall i :: 0 <= i < |frames| ==> Describes(headers[i], frames, i, base)
    ensures SeenOf(headers) == Originals(frames, base)
  {
    forall i | 0 <= i < |frames| ensures SeenOf(headers)[i] == Originals(frames, base)[i] {
      assert Describes(headers[i], frames, i, base);
    }
  }

  // ----- What the identity needs -----

  lemma DescribedWhenSeen(headers: seq<FrameHeader>, frames: seq<MediaFrame>, base: nat)
    requires SeenOf(headers) == Originals(frames, base)
    ensures AllDescribed(headers, frames, 0, base) && NoRaw(headers)
  {
    assert |SeenOf(headers)| == |Originals(frames, base)|;
    forall i | 0 <= i < |frames|
      ensures Describes(headers[i], frames, 0 + i, base) && headers[i].frameType != RawFrame
    {
      assert SeenOf(headers)[i] == Originals(frames, base)[i];
    }
  }

  lemma {:induction false} NothingButMedia(headers: seq<FrameHeader>)
    requires NoRaw(headers)
    ensures MediaOnly(headers) == headers
  {
    if headers != [] {
      assert forall k :: 0 <= k < |headers[1..]| ==> headers[1..][k] == headers[k + 1];
      NothingButMedia(headers[1..]);
    }
  }

  /** Reading as many frames as the index lists, and no filler, means reading the index
      as it stands. */
  lemma AllReadIsLaid(s: Mdat)
    requires AtStart(s) && NoRaw(s.frames) && NoRaw(Remaining(s))
    requires |Remaining(s)| == |s.frames|
    ensures Remaining(s) == s.frames && Laid(s.frames, s.begin, s.end)
  {
    StartIsSafe(s);
    RemainingIsGreedy(s);
    NothingButMedia(Remaining(s));
    assert s.frames[0..] == s.frames;
    GreedyCounts(s.frames, s.begin, s.end, s.begin);
    GreedyKeepsAll(s.frames, s.begin, s.end, s.begin);
  }

  /** The merge puts a video frame right behind an audio frame only if it lies further on. */
  lemma {:induction false} MergeAdjacent(audio: seq<FrameHeader>, video: seq<FrameHeader>, k: nat)
    requires AllOfType(audio, AudioFrame) && AllOfType(video, VideoFrame)
    requires k + 1 < |Merge(audio, video)|
    requires Merge(audio, video)[k].frameType == AudioFrame && Merge(audio, video)[k + 1].frameType == VideoFrame
    ensures Merge(audio, video)[k].offset < Merge(audio, video)[k + 1].offset
    decreases |audio| + |video|
  {
    if video == [] || (audio != [] && audio[0].offset < video[0].offset) {
      if k > 0 {
        MergeAdjacent(audio[1..], video, k - 1);
      } else {
        MergeHead(audio[1..], video);
      }
    } else if k > 0 {
      MergeAdjacent(audio, video[1..], k - 1);
    }
  }

  lemma MergeHead(audio: seq<FrameHeader>, video: seq<FrameHeader>)
    requires AllOfType(audio, AudioFrame) && AllOfType(video, VideoFrame) && Merge(audio, video) != []
    ensures var h := Merge(audio, video)[0];
      if h.frameType == AudioFrame
      then audio != [] && h == audio[0] && Merge(audio, video)[1..] == Merge(audio[1..], video)
      else video != [] && h == video[0] && Merge(audio, video)[1..] == Merge(audio, video[1..])
  {
  }

  lemma DistinguishableWhenMerged(audio: seq<FrameHeader>, video: seq<FrameHeader>, frames: seq<MediaFrame>, base: nat)
    requires AllOfType(audio, AudioFrame) && AllOfType(video, VideoFrame)
    requires AllDescribed(Merge(audio, video), frames, 0, base)
    requires Laid(Merge(audio, video), base, base + Total(frames))
    ensures Distinguishable(frames)
  {
    var merged := Merge(audio, video);
    AllFromZero(merged, frames, base);
    forall i | 0 <= i < |frames| && frames[i].size == 0
      ensures i + 1 < |frames| && (frames[i].isAudio ==> frames[i + 1].isAudio)
    {
      assert Describes(merged[i], frames, i, base);
      assert Position(frames, i + 1) == Position(frames, i);
      if i + 1 < |frames| && frames[i].isAudio && !frames[i + 1].isAudio {
        assert Describes(merged[i + 1], frames, i + 1, base);
        MergeAdjacent(audio, video, i);
      }
    }
  }

  /** Frame m, described by the head of its own track. */
  lemma OwnPart(frames: seq<MediaFrame>, m: nat, kind: bool, own: seq<FrameHeader>, base: nat)
    requires m < |frames| && frames[m].isAudio == kind && own != [] && Describes(own[0], frames, m, base)
    requires TrackDescribed(own[1..], frames, PickFrom(frames, m + 1, kind), base)
    ensures TrackDescribed(own, frames, PickFrom(frames, m, kind), base)
  {
    var p, later := PickFrom(frames, m, kind), PickFrom(frames, m + 1, kind);
    assert p == [m] + later;
    forall k | 0 <= k < |p| ensures |own| == |p| && Describes(own[k], frames, p[k], base) {
      if k > 0 {
        assert own[k] == own[1..][k - 1] && p[k] == later[k - 1];
      }
    }
  }

  lemma OtherPart(frames: seq<MediaFrame>, m: nat, kind: bool, other: seq<FrameHeader>, base: nat)
    requires m < |frames| && frames[m].isAudio != kind
    requires TrackDescribed(other, frames, PickFrom(frames, m + 1, kind), base)
    ensures TrackDescribed(other, frames, PickFrom(frames, m, kind), base)
  {
  }

  lemma AllDescribedTail(headers: seq<FrameHeader>, frames: seq<MediaFrame>, m: nat, base: nat)
    requires m < |frames| && AllDescribed(headers, frames, m, base)
    ensures headers != [] && Describes(headers[0], frames, m, base)
    ensures AllDescribed(headers[1..], frames, m + 1, base)
  {
    assert Describes(headers[0], frames, m + 0, base);
    forall k | 0 <= k < |headers[1..]| ensures Describes(headers[1..][k], frames, m + 1 + k, base) {
      assert Describes(headers[k + 1], frames, m + (k + 1), base);
    }
  }

  /** When the merged headers describe the list, each track describes its part. */
  lemma {:induction false} PartsDescribed(
    frames: seq<MediaFrame>, m: nat, audio: seq<FrameHeader>, video: seq<FrameHeader>, base: nat)
    requires AllOfType(audio, AudioFrame) && AllOfType(video, VideoFrame)
    requires m <= |frames| && AllDescribed(Merge(audio, video), frames, m, base)
    ensures TrackDescribed(audio, frames, PickFrom(frames, m, true), base)
    ensures TrackDescribed(video, frames, PickFrom(frames, m, false), base)
    decreases |frames| - m
  {
    if m == |frames| {
      assert Merge(audio, video) == [];
    } else {
      AllDescribedTail(Merge(audio, video), frames, m, base);
      MergeHead(audio, video);
      if frames[m].isAudio {
        PartsDescribed(frames, m + 1, audio[1..], video, base);
        OwnPart(frames, m, true, audio, base);
        OtherPart(frames, m, false, video, base);
      } else {
        PartsDescribed(frames, m + 1, audio, video[1..], base);
        OwnPart(frames, m, false, video, base);
        OtherPart(frames, m, true, audio, base);
      }
    }
  }

  lemma {:induction false} PicksCover(frames: seq<MediaFrame>, m: nat)
    requires m <= |frames|
    ensures |PickFrom(frames, m, true)| + |PickFrom(frames, m, false)| == |frames| - m
    decreases |frames| - m
  {
    if m < |frames| {
      PicksCover(frames, m + 1);
    }
  }

  lemma MuxedCounts(frames: seq<MediaFrame>, audioHeader: MediaHeader, videoHeader: MediaHeader, base: nat)
    requires audioHeader.timescale > 0 && videoHeader.timescale > 0
    requires HasKind(frames, true) && HasKind(frames, false)
    ensures var merged := MuxedHeaders(frames, audioHeader, videoHeader, base);
      |merged| == |frames| && NoRaw(merged)
  {
    var audio := Headers(MuxedTrack(frames, true, audioHeader, base), true);
    var video := Headers(MuxedTrack(frames, false, videoHeader, base), false);
    TrackFromStartIff(frames, true, audioHeader, base);
    TrackFromStartIff(frames, false, videoHeader, base);
    PicksCover(frames, 0);
    HeadersOfType(MuxedTrack(frames, true, audioHeader, base), true);
    HeadersOfType(MuxedTrack(frames, false, videoHeader, base), false);
    MergeNotRaw(audio, video);
  }

  lemma IdentityNeeds(frames: seq<MediaFrame>, audioHeader: MediaHeader, videoHeader: MediaHeader, base: nat)
    requires audioHeader.timescale > 0 && videoHeader.timescale > 0
    requires HasKind(frames, true) && HasKind(frames, false)
    requires var merged := MuxedHeaders(frames, audioHeader, videoHeader, base);
      SeenOf(Remaining(WholeBody(merged, frames, base))) == Originals(frames, base)
    ensures Distinguishable(frames) && BothFit(frames, base)
  {
    var merged := MuxedHeaders(frames, audioHeader, videoHeader, base);
    var s := WholeBody(merged, frames, base);
    MuxedCounts(frames, audioHeader, videoHeader, base);
    assert |Remaining(s)| == |SeenOf(Remaining(s))| == |frames|;
    DescribedWhenSeen(Remaining(s), frames, base);
    AllReadIsLaid(s);
    var audio := Headers(MuxedTrack(frames, true, audioHeader, base), true);
    var video := Headers(MuxedTrack(frames, false, videoHeader, base), false);
    HeadersOfType(MuxedTrack(frames, true, audioHeader, base), true);
    HeadersOfType(MuxedTrack(frames, false, videoHeader, base), false);
    DistinguishableWhenMerged(audio, video, frames, base);
    PartsDescribed(frames, 0, audio, video, base);
    TrackFromStartIff(frames, true, audioHeader, base);
    TrackFromStartIff(frames, false, videoHeader, base);
  }

  /** Muxing and then demuxing is the identity on a frame list if and only if every
      chunk start fits in 32 bits and no frame of size 0 ends the list or is an audio
      frame right before a video frame. */
  lemma MuxDemuxIdentityIff(frames: seq<MediaFrame>, audioHeader: MediaHeader, videoHeader: MediaHeader, base: nat)
    requires audioHeader.timescale > 0 && videoHeader.timescale > 0
    requires HasKind(frames, true) && HasKind(frames, false)
    ensures var headers := MuxedHeaders(frames, audioHeader, videoHeader, base);
      SeenOf(Remaining(WholeBody(headers, frames, base))) == Originals(frames, base) <==>
        Distinguishable(frames) && BothFit(frames, base)
  {
    var headers := MuxedHeaders(frames, audioHeader, videoHeader, base);
    if Distinguishable(frames) && BothFit(frames, base) {
      var merged := MuxThenDemux(frames, audioHeader, videoHeader, base);
      SeenWhenDescribed(merged, frames, base);
    }
    if SeenOf(Remaining(WholeBody(headers, frames, base))) == Originals(frames, base) {
      IdentityNeeds(frames, audioHeader, videoHeader, base);
    }
  }

  /** An audio frame without data, and a video frame behind it: it does not come back. */
  lemma EmptyAudioFrameIsLost(audioHeader: MediaHeader, videoHeader: MediaHeader)
    requires audioHeader.timescale > 0 && videoHeader.timescale > 0
    ensures var frames := [MediaFrame(true, 0, 0, false), MediaFrame(false, 1, 0, true)];
      && HasKind(frames, true) && HasKind(frames, false) && !Distinguishable(frames)
      && SeenOf(Remaining(WholeBody(MuxedHeaders(frames, audioHeader, videoHeader, 0), frames, 0))) !=
         Originals(frames, 0)
  {
    var frames := [MediaFrame(true, 0, 0, false), MediaFrame(false, 1, 0, true)];
    assert frames[0].isAudio && !frames[1].isAudio;
    MuxDemuxIdentityIff(frames, audioHeader, videoHeader, 0);
  }
}
