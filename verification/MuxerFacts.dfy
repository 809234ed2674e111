/** The tables built by the muxer denote the frames' true positions. */
module MuxerFacts {
  import opened Media
  import opened SampleTable
  import opened SampleTableFacts
  import opened Muxer

  /** Positions in the frame list of the frames of one track. */
  function Pick(frames: seq<MediaFrame>, audio: bool): (p: seq<nat>)
    ensures forall k :: 0 <= k < |p| ==> p[k] < |frames| && frames[p[k]].isAudio == audio
  {
    if frames == [] then []
    else
      var n := |frames| - 1;
      Pick(frames[..n], audio) + if frames[n].isAudio == audio then [n] else []
  }

  function Counts(chunks: seq<Chunk>): (r: seq<nat>)
    ensures |r| == |chunks|
  {
    seq(|chunks|, i requires 0 <= i < |chunks| => chunks[i].sampleCount)
  }

  function ChunkStart(chunks: seq<Chunk>, c: nat): nat
    requires c <= |chunks|
  {
    SumUpTo(Counts(chunks), c)
  }

  ghost predicate Within(p: seq<nat>, n: nat) {
    forall k :: 0 <= k < |p| ==> p[k] < n
  }

  /** Chunk c places its frames where they really are. */
  ghost predicate ChunkPlaced(frames: seq<MediaFrame>, p: seq<nat>, sizes: seq<nat>, chunks: seq<Chunk>, c: nat)
    requires |p| == |sizes| && Within(p, |frames|) && c < |chunks|
  {
    && chunks[c].sampleCount >= 1
    && ChunkStart(chunks, c + 1) <= |p|
    && forall k :: ChunkStart(chunks, c) <= k < ChunkStart(chunks, c + 1) ==>
         Position(frames, p[k]) == chunks[c].startOffset + SumUpTo(sizes, k) - SumUpTo(sizes, ChunkStart(chunks, c))
  }

  ghost predicate ChunksPlaced(frames: seq<MediaFrame>, p: seq<nat>, sizes: seq<nat>, chunks: seq<Chunk>)
    requires |p| == |sizes| && Within(p, |frames|)
  {
    && ChunkStart(chunks, |chunks|) == |p|
    && forall c :: 0 <= c < |chunks| ==> ChunkPlaced(frames, p, sizes, chunks, c)
  }

  /** STSS numbers exactly the keyframes, from 1. */
  ghost predicate KeyframesListed(frames: seq<MediaFrame>, audio: bool, p: seq<nat>, keyframes: seq<nat>)
    requires Within(p, |frames|)
  {
    forall m :: m in keyframes <==> 1 <= m <= |p| && !audio && frames[p[m - 1]].keyframe
  }

  ghost predicate SizesListed(frames: seq<MediaFrame>, p: seq<nat>, sizes: seq<nat>)
    requires Within(p, |frames|)
  {
    |sizes| == |p| && forall k :: 0 <= k < |p| ==> sizes[k] == frames[p[k]].size
  }

  ghost predicate IndexFaithful(frames: seq<MediaFrame>, audio: bool, index: TrackIndex) {
    var p := Pick(frames, audio);
    && SizesListed(frames, p, index.sizes)
    && ChunksPlaced(frames, p, index.sizes, index.chunks)
    && KeyframesListed(frames, audio, p, index.keyframes)
  }

  lemma PositionOfPrefix(frames: seq<MediaFrame>, n: nat, i: nat)
    requires i <= n <= |frames|
    ensures Position(frames[..n], i) == Position(frames, i)
  {
    SumUpToPrefix(Sizes(frames[..n]), Sizes(frames), i);
  }

  lemma LastPicked(frames: seq<MediaFrame>, audio: bool)
    requires frames != [] && LastIsAudio(frames) == audio
    ensures Pick(frames, audio) != [] && Pick(frames, audio)[|Pick(frames, audio)| - 1] == |frames| - 1
  {
  }

  lemma ChunkStartExtend(chunks: seq<Chunk>, chunks': seq<Chunk>, c: nat)
    requires c <= |chunks| && c <= |chunks'| && chunks[..c] == chunks'[..c]
    ensures ChunkStart(chunks, c) == ChunkStart(chunks', c)
  {
    forall i | 0 <= i < c ensures Counts(chunks)[i] == Counts(chunks')[i] {
      assert chunks[..c][i] == chunks'[..c][i];
    }
    SumUpToPrefix(Counts(chunks), Counts(chunks'), c);
  }

  /** What holds of the frames seen so far keeps holding when more follow. */
  lemma FaithfulOnPrefix(frames: seq<MediaFrame>, n: nat, audio: bool, index: TrackIndex)
    requires n <= |frames| && IndexFaithful(frames[..n], audio, index)
    ensures var p := Pick(frames[..n], audio);
      && SizesListed(frames, p, index.sizes)
      && ChunksPlaced(frames, p, index.sizes, index.chunks)
      && KeyframesListed(frames, audio, p, index.keyframes)
  {
    forall i | 0 <= i <= n ensures Position(frames[..n], i) == Position(frames, i) {
      PositionOfPrefix(frames, n, i);
    }
    var p := Pick(frames[..n], audio);
    forall c | 0 <= c < |index.chunks| ensures ChunkPlaced(frames, p, index.sizes, index.chunks, c) {
      assert ChunkPlaced(frames[..n], p, index.sizes, index.chunks, c);
    }
  }

  lemma {:induction false} IndexIsFaithful(frames: seq<MediaFrame>, audio: bool)
    ensures IndexFaithful(frames, audio, IndexOf(frames, audio))
  {
    if frames == [] {
      EmptyIsFaithful(audio);
    } else {
      var n := |frames| - 1;
      IndexIsFaithful(frames[..n], audio);
      FaithfulOnPrefix(frames, n, audio, IndexOf(frames[..n], audio));
      if frames[n].isAudio != audio {
        assert Pick(frames, audio) == Pick(frames[..n], audio);
      } else {
        ExtendIsFaithful(frames, audio, IndexOf(frames[..n], audio));
      }
    }
  }

  lemma EmptyIsFaithful(audio: bool)
    ensures IndexFaithful([], audio, TrackIndex([], [], []))
  {
  }

  lemma ExtendIsFaithful(frames: seq<MediaFrame>, audio: bool, before: TrackIndex)
    requires frames != [] && frames[|frames| - 1].isAudio == audio
    requires var p := Pick(frames[..|frames| - 1], audio);
      && SizesListed(frames, p, before.sizes)
      && ChunksPlaced(frames, p, before.sizes, before.chunks)
      && KeyframesListed(frames, audio, p, before.keyframes)
    ensures var n := |frames| - 1;
      IndexFaithful(frames, audio, Extend(before, frames[n], Total(frames[..n]), LastIsAudio(frames[..n]) != audio))
  {
    var n := |frames| - 1;
    var p, opens := Pick(frames[..n], audio), LastIsAudio(frames[..n]) != audio;
    assert Pick(frames, audio) == p + [n];
    PositionOfPrefix(frames, n, n);
    FollowsLast(frames, audio, before);
    ChunksExtend(frames, p, before, opens);
    KeyframesExtend(frames, audio, p, before.keyframes);
    SizesExtend(frames, p, before.sizes);
  }

  /** In an open chunk the track's last frame is the one before the new one. */
  lemma FollowsLast(frames: seq<MediaFrame>, audio: bool, before: TrackIndex)
    requires frames != []
    requires SizesListed(frames, Pick(frames[..|frames| - 1], audio), before.sizes)
    ensures var p := Pick(frames[..|frames| - 1], audio);
      LastIsAudio(frames[..|frames| - 1]) == audio && p != [] ==>
        && |frames| >= 2 && p[|p| - 1] == |frames| - 2
        && before.sizes[|p| - 1] == frames[|frames| - 2].size
  {
    if LastIsAudio(frames[..|frames| - 1]) == audio && frames[..|frames| - 1] != [] {
      LastPicked(frames[..|frames| - 1], audio);
    }
  }

  lemma SizesExtend(frames: seq<MediaFrame>, p: seq<nat>, sizes: seq<nat>)
    requires frames != [] && Within(p, |frames|) && SizesListed(frames, p, sizes)
    ensures SizesListed(frames, p + [|frames| - 1], sizes + [frames[|frames| - 1].size])
  {
  }

  /** The new frame either opens a chunk or directly follows its track's last frame. */
  lemma ChunksExtend(frames: seq<MediaFrame>, p: seq<nat>, before: TrackIndex, opens: bool)
    requires frames != [] && |p| == |before.sizes| && Within(p, |frames| - 1)
    requires ChunksPlaced(frames, p, before.sizes, before.chunks)
    requires !opens && p != [] ==>
      && |frames| >= 2 && p[|p| - 1] == |frames| - 2
      && before.sizes[|p| - 1] == frames[|frames| - 2].size
    ensures var n := |frames| - 1; var after := Extend(before, frames[n], Position(frames, n), opens);
      ChunksPlaced(frames, p + [n], after.sizes, after.chunks)
  {
    var n := |frames| - 1;
    var after := Extend(before, frames[n], Position(frames, n), opens);
    if opens || before.chunks == [] {
      PlacedInNewChunk(frames, p, before.sizes, before.chunks);
      assert after.chunks == before.chunks + [Chunk(Position(frames, n), 1)];
    } else {
      assert ChunkPlaced(frames, p, before.sizes, before.chunks, 0);
      assert ChunkStart(before.chunks, 0) + Counts(before.chunks)[0] == ChunkStart(before.chunks, 1);
      PlacedInLastChunk(frames, p, before.sizes, before.chunks);
    }
  }

  lemma KeyframesExtend(frames: seq<MediaFrame>, audio: bool, p: seq<nat>, keyframes: seq<nat>)
    requires frames != [] && frames[|frames| - 1].isAudio == audio && Within(p, |frames|)
    requires KeyframesListed(frames, audio, p, keyframes)
    ensures var f := frames[|frames| - 1];
      KeyframesListed(frames, audio, p + [|frames| - 1],
                      if !f.isAudio && f.keyframe then keyframes + [|p| + 1] else keyframes)
  {
  }

  lemma PlacedInNewChunk(frames: seq<MediaFrame>, p: seq<nat>, sizes: seq<nat>, chunks: seq<Chunk>)
    requires frames != [] && |p| == |sizes| && Within(p, |frames|) && ChunksPlaced(frames, p, sizes, chunks)
    ensures var n := |frames| - 1;
      ChunksPlaced(frames, p + [n], sizes + [frames[n].size], chunks + [Chunk(Position(frames, n), 1)])
  {
    var n := |frames| - 1;
    var p', sizes', chunks' := p + [n], sizes + [frames[n].size], chunks + [Chunk(Position(frames, n), 1)];
    forall c | 0 <= c <= |chunks| ensures ChunkStart(chunks', c) == ChunkStart(chunks, c) {
      ChunkStartExtend(chunks, chunks', c);
    }
    forall k | 0 <= k <= |p| ensures SumUpTo(sizes', k) == SumUpTo(sizes, k) {
      SumUpToPrefix(sizes', sizes, k);
    }
    forall c | 0 <= c < |chunks'| ensures ChunkPlaced(frames, p', sizes', chunks', c) {
      if c < |chunks| {
        assert ChunkPlaced(frames, p, sizes, chunks, c);
      }
    }
  }

  lemma PlacedInLastChunk(frames: seq<MediaFrame>, p: seq<nat>, sizes: seq<nat>, chunks: seq<Chunk>)
    requires |frames| >= 2 && |p| == |sizes| && Within(p, |frames|) && ChunksPlaced(frames, p, sizes, chunks)
    requires chunks != [] && p != [] && p[|p| - 1] == |frames| - 2 && sizes[|p| - 1] == frames[|frames| - 2].size
    ensures var n := |frames| - 1; var l := |chunks| - 1;
      ChunksPlaced(frames, p + [n], sizes + [frames[n].size],
                   chunks[l := chunks[l].(sampleCount := chunks[l].sampleCount + 1)])
  {
    var n, l := |frames| - 1, |chunks| - 1;
    var p', sizes' := p + [n], sizes + [frames[n].size];
    var chunks' := chunks[l := chunks[l].(sampleCount := chunks[l].sampleCount + 1)];
    forall c | 0 <= c <= l ensures ChunkStart(chunks', c) == ChunkStart(chunks, c) {
      ChunkStartExtend(chunks, chunks', c);
    }
    assert ChunkStart(chunks', l + 1) == ChunkStart(chunks', l) + Counts(chunks')[l];
    assert ChunkStart(chunks, l + 1) == ChunkStart(chunks, l) + Counts(chunks)[l];
    assert ChunkStart(chunks', l + 1) == |p| + 1;
    forall k | 0 <= k <= |p| ensures SumUpTo(sizes', k) == SumUpTo(sizes, k) {
      SumUpToPrefix(sizes', sizes, k);
    }
    forall c | 0 <= c < |chunks'| ensures ChunkPlaced(frames, p', sizes', chunks', c) {
      assert ChunkPlaced(frames, p, sizes, chunks, c);
      if c == l {
        // the new frame follows the last one of its chunk
        assert ChunkStart(chunks, l) <= |p| - 1 < ChunkStart(chunks, l + 1);
        assert Position(frames, n) == Position(frames, n - 1) + frames[n - 1].size;
      }
    }
  }

  // ----- The tables, read back -----

  lemma OneRecordPerChunk(chunks: seq<Chunk>, c: nat)
    requires 1 <= c <= |chunks|
    ensures WellFormed(ChunkRecords(chunks)) && RecordFor(ChunkRecords(chunks), c) == c - 1
  {
    RecordForIsLastStarted(ChunkRecords(chunks), c);
  }

  lemma {:induction false} SamplesBeforeIsChunkStart(chunks: seq<Chunk>, c: nat)
    requires chunks != [] && c <= |chunks|
    ensures SamplesBefore(ChunkRecords(chunks), c + 1) == ChunkStart(chunks, c)
  {
    if c > 0 {
      SamplesBeforeIsChunkStart(chunks, c - 1);
      OneRecordPerChunk(chunks, c);
      assert Counts(chunks)[c - 1] == chunks[c - 1].sampleCount;
    }
  }

  /** What the caller can check: every chunk start, moved to where the MDAT body
      begins, still fits its 32-bit field. */
  predicate ChunksFit(chunks: seq<Chunk>, base: nat) {
    forall c :: 0 <= c < |chunks| ==> chunks[c].startOffset + base < TWO32
  }

  /** An index whose frames are those at positions p of the list. */
  ghost predicate Places(frames: seq<MediaFrame>, p: seq<nat>, index: TrackIndex) {
    && |index.sizes| == |p| && p != []
    && Within(p, |frames|)
    && ChunksPlaced(frames, p, index.sizes, index.chunks)
  }

  lemma IndexPlaces(frames: seq<MediaFrame>, audio: bool)
    requires HasKind(frames, audio)
    ensures Places(frames, Pick(frames, audio), IndexOf(frames, audio))
  {
    SizesNonEmpty(frames, audio);
    IndexIsFaithful(frames, audio);
  }

  lemma MuxedTrackAccepted(frames: seq<MediaFrame>, p: seq<nat>, index: TrackIndex, header: MediaHeader, base: nat,
                           stss: Option<seq<nat>>)
    requires header.timescale > 0 && Places(frames, p, index)
    ensures var t := TrackOf(index, header, base, stss); Accepted(t) && FrameCount(t) == |p|
  {
    var chunks := index.chunks;
    assert chunks != [];
    OneRecordPerChunk(chunks, 1);
    WellFormedAccepted(ChunkRecords(chunks), |chunks|);
    SamplesBeforeIsChunkStart(chunks, |chunks|);
  }

  lemma ChunkOfSample(chunks: seq<Chunk>, t: Track, k: nat) returns (c: nat)
    requires chunks != [] && t.stsc == ChunkRecords(chunks) && |t.stco| == |chunks| && k < FrameCount(t)
    ensures c < |chunks| && c + 1 == ChunkOf(t, k, 1)
    ensures ChunkStart(chunks, c) == SamplesBefore(t.stsc, c + 1)
    ensures ChunkStart(chunks, c) <= k < ChunkStart(chunks, c + 1)
  {
    var chunk := ChunkOf(t, k, 1);
    SamplesBeforeIsChunkStart(chunks, chunk - 1);
    SamplesBeforeIsChunkStart(chunks, chunk);
    c := chunk - 1;
  }

  /** What the start of a chunk loses in its 32-bit field. */
  function Loss(chunk: Chunk, base: nat): int {
    U32(chunk.startOffset + base) - (chunk.startOffset + base)
  }

  lemma StoredStart(chunks: seq<Chunk>, base: nat, c: nat)
    requires c < |chunks|
    ensures ChunkOffsets(chunks, base)[c] == chunks[c].startOffset + base + Loss(chunks[c], base)
  {
  }

  /** Frame k of the track sits in some chunk, and is off by exactly what that
      chunk's start lost in the 32-bit field. */
  lemma MuxedOffset(frames: seq<MediaFrame>, p: seq<nat>, index: TrackIndex, t: Track, base: nat, k: nat)
      returns (c: nat)
    requires Places(frames, p, index) && k < |p|
    requires t.stsz == index.sizes && t.stco == ChunkOffsets(index.chunks, base)
    requires t.stsc == ChunkRecords(index.chunks) != [] && FrameCount(t) == |p|
    ensures c < |index.chunks| && ChunkStart(index.chunks, c) <= k < ChunkStart(index.chunks, c + 1)
    ensures OffsetOf(t, k) - (base + Position(frames, p[k])) == Loss(index.chunks[c], base)
  {
    c := ChunkOfSample(index.chunks, t, k);
    StoredStart(index.chunks, base, c);
    PlacedAt(frames, p, index.sizes, index.chunks, c, k);
    OffsetFromChunk(t, k, c, ChunkStart(index.chunks, c));
  }

  lemma PlacedAt(frames: seq<MediaFrame>, p: seq<nat>, sizes: seq<nat>, chunks: seq<Chunk>, c: nat, k: nat)
    requires |p| == |sizes| && Within(p, |frames|) && ChunksPlaced(frames, p, sizes, chunks)
    requires c < |chunks| && k < |p| && ChunkStart(chunks, c) <= k < ChunkStart(chunks, c + 1)
    ensures Position(frames, p[k]) ==
      chunks[c].startOffset + SumUpTo(sizes, k) - SumUpTo(sizes, ChunkStart(chunks, c))
  {
    assert ChunkPlaced(frames, p, sizes, chunks, c);
  }

  lemma OffsetFromChunk(t: Track, k: nat, c: nat, first: nat)
    requires t.stsc != [] && k < FrameCount(t) && c + 1 == ChunkOf(t, k, 1) && first == SamplesBefore(t.stsc, c + 1)
    ensures c < |t.stco| && first <= k
    ensures OffsetOf(t, k) == t.stco[c] + SumUpTo(t.stsz, k) - SumUpTo(t.stsz, first)
  {
  }

  /** The index of a track is right about every frame if and only if its chunk
      starts fit in 32 bits. */
  lemma MuxedOffsetsIff(frames: seq<MediaFrame>, p: seq<nat>, index: TrackIndex, t: Track, base: nat)
    requires Places(frames, p, index)
    requires t.stsz == index.sizes && t.stco == ChunkOffsets(index.chunks, base)
    requires t.stsc == ChunkRecords(index.chunks) != [] && FrameCount(t) == |p|
    ensures ChunksFit(index.chunks, base) <==>
            forall k :: 0 <= k < |p| ==> OffsetOf(t, k) == base + Position(frames, p[k])
  {
    if ChunksFit(index.chunks, base) {
      forall k | 0 <= k < |p| ensures OffsetOf(t, k) == base + Position(frames, p[k]) {
        var c := MuxedOffset(frames, p, index, t, base, k);
      }
    } else {
      var c :| 0 <= c < |index.chunks| && index.chunks[c].startOffset + base >= TWO32;
      assert ChunkPlaced(frames, p, index.sizes, index.chunks, c);
      var k := ChunkStart(index.chunks, c);
      assert ChunkStart(index.chunks, c + 1) == k + Counts(index.chunks)[c];
      var d := MuxedOffset(frames, p, index, t, base, k);
      ChunkStartInjective(index.chunks, c, d, k);
      assert OffsetOf(t, k) != base + Position(frames, p[k]);
    }
  }

  /** Two frames of one byte in a body that begins one byte below 4 GB: the chunk of the
      second is stored as offset 0. */
  lemma ChunkStartWraps(header: MediaHeader)
    requires header.timescale > 0
    ensures var frames, base := [MediaFrame(true, 1, 0, false), MediaFrame(false, 1, 0, true)], TWO32 - 1;
      && HasKind(frames, false) && Position(frames, 1) == 1
      && VideoTrack(frames, header, base).stco == [0]
      && !ChunksFit(IndexOf(frames, false).chunks, base)
  {
    var frames, base := [MediaFrame(true, 1, 0, false), MediaFrame(false, 1, 0, true)], TWO32 - 1;
    assert !frames[1].isAudio;
    assert frames[..1] == [MediaFrame(true, 1, 0, false)] && frames[..1][..0] == [];
    assert Sizes(frames[..1]) == [1] && SumUpTo([1], 1) == 1;
    PositionOfPrefix(frames, 1, 1);
    assert IndexOf(frames[..1], false) == IndexOf([], false);
    var chunks := IndexOf(frames, false).chunks;
    assert chunks == [Chunk(1, 1)];
    assert chunks[0].startOffset + base >= TWO32;
  }

  lemma ChunkStartInjective(chunks: seq<Chunk>, c: nat, d: nat, k: nat)
    requires c < |chunks| && d < |chunks|
    requires ChunkStart(chunks, c) <= k < ChunkStart(chunks, c + 1)
    requires ChunkStart(chunks, d) <= k < ChunkStart(chunks, d + 1)
    ensures c == d
  {
    if c < d {
      SumUpToMonotone(Counts(chunks), c + 1, d);
    } else if d < c {
      SumUpToMonotone(Counts(chunks), d + 1, c);
    }
  }

  /** A whole file below 4 GB always fits. */
  lemma SmallFileFits(frames: seq<MediaFrame>, p: seq<nat>, index: TrackIndex, base: nat)
    requires Places(frames, p, index) && Total(frames) + base < TWO32
    ensures ChunksFit(index.chunks, base)
  {
    forall c | 0 <= c < |index.chunks| ensures index.chunks[c].startOffset + base < TWO32 {
      assert ChunkPlaced(frames, p, index.sizes, index.chunks, c);
      var k := ChunkStart(index.chunks, c);
      assert ChunkStart(index.chunks, c + 1) == k + Counts(index.chunks)[c];
      SumUpToMonotone(Sizes(frames), p[k], |frames|);
    }
  }

  /** With the one duration that a muxed track gives to all its samples, the track
      falls short of its announced length by less than a clock tick a sample. */
  lemma MuxedClockTotal(index: TrackIndex, header: MediaHeader, base: nat, stss: Option<seq<nat>>)
    requires index.sizes != []
    ensures var n := |index.sizes|;
      header.duration - n < RunSum(TrackOf(index, header, base, stss).stts, n) <= header.duration
  {
    var n := |index.sizes|;
    UniformRunSum(n, header.duration / n, n);
    assert header.duration == n * (header.duration / n) + header.duration % n;
  }
}
