/** Building the sample tables of a MOOV from a flat list of frames that will be
    written back to back in the MDAT body. */
module Muxer {
  import opened Media
  import opened SampleTable

  datatype MediaFrame = MediaFrame(isAudio: bool, size: nat, decodingTs: int, keyframe: bool)

  /** A run of adjacent frames of the same track. */
  datatype Chunk = Chunk(startOffset: nat, sampleCount: nat)

  /** What one track accumulates: STSZ, the chunk list and STSS. */
  datatype TrackIndex = TrackIndex(sizes: seq<nat>, chunks: seq<Chunk>, keyframes: seq<nat>)

  function Sizes(frames: seq<MediaFrame>): (r: seq<nat>)
    ensures |r| == |frames|
  {
    seq(|frames|, i requires 0 <= i < |frames| => frames[i].size)
  }

  /** Where frame n starts, relative to the MDAT body. */
  function Position(frames: seq<MediaFrame>, n: nat): nat
    requires n <= |frames|
  {
    SumUpTo(Sizes(frames), n)
  }

  function Total(frames: seq<MediaFrame>): nat {
    Position(frames, |frames|)
  }

  function Extend(index: TrackIndex, frame: MediaFrame, offset: nat, opensChunk: bool): TrackIndex {
    var chunks := if opensChunk || index.chunks == [] then index.chunks + [Chunk(offset, 0)] else index.chunks;
    var last := chunks[|chunks| - 1];
    TrackIndex(
      index.sizes + [frame.size],
      chunks[|chunks| - 1 := last.(sampleCount := last.sampleCount + 1)],
      if !frame.isAudio && frame.keyframe then index.keyframes + [|index.sizes| + 1] else index.keyframes)
  }

  /** Before any frame the last one counts as audio. */
  function LastIsAudio(frames: seq<MediaFrame>): bool {
    frames == [] || frames[|frames| - 1].isAudio
  }

  /** The index of one track after all the frames. */
  function IndexOf(frames: seq<MediaFrame>, audio: bool): TrackIndex {
    if frames == [] then TrackIndex([], [], [])
    else
      var n := |frames| - 1;
      var before := IndexOf(frames[..n], audio);
      if frames[n].isAudio != audio then before
      else Extend(before, frames[n], Total(frames[..n]), LastIsAudio(frames[..n]) != audio)
  }

  lemma TotalAppend(frames: seq<MediaFrame>, frame: MediaFrame)
    ensures Total(frames + [frame]) == Total(frames) + frame.size
  {
    assert Sizes(frames + [frame]) == Sizes(frames) + [frame.size];
    SumAppend(Sizes(frames), frame.size);
  }

  lemma IndexOfAppend(frames: seq<MediaFrame>, frame: MediaFrame, audio: bool)
    ensures IndexOf(frames + [frame], audio) ==
      if frame.isAudio != audio then IndexOf(frames, audio)
      else Extend(IndexOf(frames, audio), frame, Total(frames), LastIsAudio(frames) != audio)
  {
    assert (frames + [frame])[..|frames|] == frames;
  }

  /** The running state of the frame loop. */
  class IndexBuilder {
    var frameOffset: nat
    var lastFrameWasAudio: bool
    var audio: TrackIndex
    var video: TrackIndex
    ghost var frames: seq<MediaFrame>

    ghost predicate Valid()
      reads this
    {
      && frameOffset == Total(frames)
      && lastFrameWasAudio == LastIsAudio(frames)
      && audio == IndexOf(frames, true)
      && video == IndexOf(frames, false)
    }

    constructor ()
      ensures Valid() && frames == []
    {
      frameOffset, lastFrameWasAudio := 0, true;
      audio, video := TrackIndex([], [], []), TrackIndex([], [], []);
      frames := [];
    }

    method AddFrame(frame: MediaFrame)
      requires Valid()
      modifies this
      ensures Valid() && frames == old(frames) + [frame]
    {
      IndexOfAppend(frames, frame, true);
      IndexOfAppend(frames, frame, false);
      TotalAppend(frames, frame);
      var index := if frame.isAudio then audio else video;
      var chunks := index.chunks;
      if lastFrameWasAudio != frame.isAudio || chunks == [] {
        chunks := chunks + [Chunk(frameOffset, 0)];
      }
      var last := chunks[|chunks| - 1];
      chunks := chunks[|chunks| - 1 := last.(sampleCount := last.sampleCount + 1)];
      if frame.isAudio {
        audio := TrackIndex(audio.sizes + [frame.size], chunks, audio.keyframes);
      } else {
        var keyframes := video.keyframes;
        if frame.keyframe {
          keyframes := keyframes + [|video.sizes| + 1];
        }
        video := TrackIndex(video.sizes + [frame.size], chunks, keyframes);
      }
      lastFrameWasAudio := frame.isAudio;
      frameOffset := frameOffset + frame.size;
      frames := frames + [frame];
    }
  }

  /** The timing a track header supplies: clock ticks per second and length in ticks. */
  datatype MediaHeader = MediaHeader(timescale: nat, duration: nat)

  function ChunkRecords(chunks: seq<Chunk>): (r: seq<StscRecord>)
    ensures |r| == |chunks|
  {
    seq(|chunks|, i requires 0 <= i < |chunks| => StscRecord(i + 1, chunks[i].sampleCount))
  }

  /** Chunk offsets live in 32-bit fields. */
  function ChunkOffsets(chunks: seq<Chunk>, base: nat): (r: seq<nat>)
    ensures |r| == |chunks|
  {
    seq(|chunks|, i requires 0 <= i < |chunks| => U32(chunks[i].startOffset + base))
  }

  function TrackOf(index: TrackIndex, header: MediaHeader, base: nat, stss: Option<seq<nat>>): Track
    requires index.sizes != []
  {
    Track(
      index.sizes,
      ChunkOffsets(index.chunks, base),
      ChunkRecords(index.chunks),
      [Run(|index.sizes|, header.duration / |index.sizes|)],
      None,
      stss,
      header.timescale)
  }

  /** The list has frames of a kind. */
  ghost predicate HasKind(frames: seq<MediaFrame>, audio: bool) {
    exists i :: 0 <= i < |frames| && frames[i].isAudio == audio
  }

  lemma {:induction false} SizesNonEmpty(frames: seq<MediaFrame>, audio: bool)
    requires HasKind(frames, audio)
    ensures IndexOf(frames, audio).sizes != []
  {
    var n := |frames| - 1;
    if frames[n].isAudio != audio {
      var i :| 0 <= i < |frames| && frames[i].isAudio == audio;
      assert frames[..n][i].isAudio == audio;
      SizesNonEmpty(frames[..n], audio);
    }
  }

  function AudioTrack(frames: seq<MediaFrame>, header: MediaHeader, base: nat): Track
    requires HasKind(frames, true)
  {
    SizesNonEmpty(frames, true);
    TrackOf(IndexOf(frames, true), header, base, None)
  }

  function VideoTrack(frames: seq<MediaFrame>, header: MediaHeader, base: nat): Track
    requires HasKind(frames, false)
  {
    SizesNonEmpty(frames, false);
    TrackOf(IndexOf(frames, false), header, base, Some(IndexOf(frames, false).keyframes))
  }

  /** STSC and STCO from a chunk list, first with offsets relative to the MDAT
      body, then moved to where the body starts. */
  method BuildChunkTables(chunks: seq<Chunk>, base: nat) returns (stsc: seq<StscRecord>, stco: seq<nat>)
    ensures stsc == ChunkRecords(chunks) && stco == ChunkOffsets(chunks, base)
  {
    stsc, stco := [], [];
    for i := 0 to |chunks|
      invariant stsc == ChunkRecords(chunks)[..i]
      invariant |stco| == i && forall k :: 0 <= k < i ==> stco[k] == U32(chunks[k].startOffset)
    {
      stsc := stsc + [StscRecord(i + 1, chunks[i].sampleCount)];
      stco := stco + [U32(chunks[i].startOffset)];
    }
    for i := 0 to |stco|
      invariant |stco| == |chunks|
      invariant forall k :: 0 <= k < i ==> stco[k] == U32(chunks[k].startOffset + base)
      invariant forall k :: i <= k < |stco| ==> stco[k] == U32(chunks[k].startOffset)
    {
      U32Add(chunks[i].startOffset, base);
      stco := stco[i := U32(stco[i] + base)];
    }
  }

  lemma U32Add(x: nat, y: nat)
    ensures U32(U32(x) + y) == U32(x + y)
  {
  }

  /** Pass over the frames, then the tables. Both tracks must have frames: the
      sample duration is the track duration divided by the frame count. */
  method ComposeMoov(frames: seq<MediaFrame>, audioHeader: MediaHeader, videoHeader: MediaHeader, base: nat)
      returns (audio: Track, video: Track, bodySize: nat)
    requires HasKind(frames, true) && HasKind(frames, false)
    ensures audio == AudioTrack(frames, audioHeader, base)
    ensures video == VideoTrack(frames, videoHeader, base)
    ensures bodySize == Total(frames)
  {
    var builder := new IndexBuilder();
    for i := 0 to |frames|
      invariant builder.Valid() && builder.frames == frames[..i] && fresh(builder)
    {
      builder.AddFrame(frames[i]);
    }
    assert frames[..|frames|] == frames;
    SizesNonEmpty(frames, true);
    SizesNonEmpty(frames, false);
    var audioStts := [Run(|builder.audio.sizes|, audioHeader.duration / |builder.audio.sizes|)];
    var videoStts := [Run(|builder.video.sizes|, videoHeader.duration / |builder.video.sizes|)];
    var audioStsc, audioStco := BuildChunkTables(builder.audio.chunks, base);
    var videoStsc, videoStco := BuildChunkTables(builder.video.chunks, base);
    audio := Track(builder.audio.sizes, audioStco, audioStsc, audioStts, None, None, audioHeader.timescale);
    video := Track(builder.video.sizes, videoStco, videoStsc, videoStts, None, Some(builder.video.keyframes),
                   videoHeader.timescale);
    bodySize := builder.frameOffset;
  }
}
