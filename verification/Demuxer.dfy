/** Cutting the MDAT body of an F4V file into frames. */
module Demuxer {
  import opened Media
  import opened SampleTable

  type Byte = x: int | 0 <= x < 256

  datatype Frame = Frame(header: FrameHeader, data: seq<Byte>)

  datatype Status = Success | NoData

  const RAW_SPLIT_SIZE: int := 10000

  // ----- What is read -----

  /** Merges two tracks by file offset; at equal offsets video goes first. */
  function Merge(audio: seq<FrameHeader>, video: seq<FrameHeader>): seq<FrameHeader>
    decreases |audio| + |video|
  {
    if audio == [] && video == [] then []
    else if video == [] || (audio != [] && audio[0].offset < video[0].offset)
    then [audio[0]] + Merge(audio[1..], video)
    else [video[0]] + Merge(audio, video[1..])
  }

  /** What is merged once the first a audio and v video headers are taken. */
  function MergeFrom(audio: seq<FrameHeader>, video: seq<FrameHeader>, a: nat, v: nat): seq<FrameHeader>
    requires a <= |audio| && v <= |video|
  {
    Merge(audio[a..], video[v..])
  }

  predicate TakesAudio(audio: seq<FrameHeader>, video: seq<FrameHeader>, a: nat, v: nat)
    requires a <= |audio| && v <= |video|
  {
    a < |audio| && (v == |video| || audio[a].offset < video[v].offset)
  }

  lemma MergeStep(audio: seq<FrameHeader>, video: seq<FrameHeader>, a: nat, v: nat)
    requires a <= |audio| && v <= |video| && (a < |audio| || v < |video|)
    ensures TakesAudio(audio, video, a, v) ==>
      MergeFrom(audio, video, a, v) == [audio[a]] + MergeFrom(audio, video, a + 1, v)
    ensures !TakesAudio(audio, video, a, v) ==>
      v < |video| && MergeFrom(audio, video, a, v) == [video[v]] + MergeFrom(audio, video, a, v + 1)
  {
    assert a < |audio| ==> audio[a..][1..] == audio[a + 1..];
    assert v < |video| ==> video[v..][1..] == video[v + 1..];
  }

  lemma MergeDone(frames: seq<FrameHeader>, audio: seq<FrameHeader>, video: seq<FrameHeader>)
    ensures frames + MergeFrom(audio, video, |audio|, |video|) == frames
    ensures MergeFrom(audio, video, 0, 0) == Merge(audio, video)
  {
    assert audio[0..] == audio && video[0..] == video;
  }

  method MergeTracks(audio: seq<FrameHeader>, video: seq<FrameHeader>) returns (frames: seq<FrameHeader>)
    ensures frames == Merge(audio, video)
  {
    frames := [];
    var a, v := 0, 0;
    MergeDone(frames, audio, video);
    while a < |audio| || v < |video|
      invariant 0 <= a <= |audio| && 0 <= v <= |video|
      invariant frames + MergeFrom(audio, video, a, v) == Merge(audio, video)
      decreases |audio| - a + |video| - v
    {
      MergeStep(audio, video, a, v);
      var isAudio := if v == |video| then true else if a == |audio| then false else audio[a].offset < video[v].offset;
      if isAudio {
        Reassociate(frames, [audio[a]], MergeFrom(audio, video, a + 1, v));
        frames := frames + [audio[a]];
        a := a + 1;
      } else {
        Reassociate(frames, [video[v]], MergeFrom(audio, video, a, v + 1));
        frames := frames + [video[v]];
        v := v + 1;
      }
    }
    MergeDone(frames, audio, video);
  }

  /** A position inside an MDAT body [begin, end): `next` is the first header not
      dealt with yet, `prev` the frame read last. */
  datatype Mdat = Mdat(
    begin: int, end: int, offset: int,
    frames: seq<FrameHeader>, next: nat, prev: Option<FrameHeader>)
  {
    predicate InBounds() {
      begin <= offset <= end && next <= |frames|
    }

    predicate InRange(k: nat)
      requires k < |frames|
    {
      begin <= frames[k].offset < end
    }

    /** First header from k on that starts inside the body. */
    function FirstInRange(k: nat): (r: nat)
      requires k <= |frames|
      ensures k <= r <= |frames|
      ensures r < |frames| ==> InRange(r)
      ensures forall i :: k <= i < r ==> !InRange(i)
      decreases |frames| - k
    {
      if k == |frames| || InRange(k) then k else FirstInRange(k + 1)
    }

    /** The condition behind the decoder's internal checks: before anything has
        been read, the next usable header must not lie behind the position. */
    predicate Safe() {
      && InBounds()
      && (prev.Some? ==> prev.value.End() == offset)
      && (prev.None? ==>
            var k := FirstInRange(next);
            k < |frames| ==> offset <= frames[k].offset)
    }

    function RawTimestamp(): int {
      if prev.Some? then prev.value.decodingTimestamp else 0
    }

    /** A filler frame up to `limit`. */
    function Filler(limit: int): FrameHeader
      requires offset <= limit
    {
      FrameHeader(offset, limit - offset, RawTimestamp(), 0, 0, 0, RawFrame, false)
    }

    /** The first part of header h, cut at the end of the body. */
    function Truncated(h: FrameHeader): FrameHeader
      requires offset <= end
    {
      FrameHeader(offset, end - offset, h.decodingTimestamp, h.compositionOffsetMs, h.duration, h.sampleIndex,
                  RawFrame, false)
    }

    function After(header: FrameHeader, next': nat): Mdat {
      Mdat(begin, end, offset + header.size, frames, next', Some(header))
    }
  }

  /** What the decoder decides to read at a position. */
  datatype Choice =
    | Finished
    | CheckFails
    | Read(header: FrameHeader, next: nat, advance: bool)
  {
    function NextIndex(): nat
      requires Read?
    {
      if advance then next + 1 else next
    }
  }

  function Choose(s: Mdat): (c: Choice)
    requires s.InBounds()
    ensures c.Read? ==>
      && s.next <= c.next <= |s.frames|
      && c.header.offset == s.offset && c.header.End() <= s.end
      && (if c.advance then c.next < |s.frames| else c.header.size > 0)
    decreases |s.frames| - s.next
  {
    if s.next == |s.frames| then
      if s.offset == s.end then Finished else Read(s.Filler(s.end), s.next, false)
    else
      var h := s.frames[s.next];
      if h.offset < s.begin || h.offset >= s.end then Choose(s.(next := s.next + 1))
      else if h.offset < s.offset then
        if s.prev.None? then CheckFails else Choose(s.(next := s.next + 1))
      else if s.offset < h.offset then Read(s.Filler(h.offset), s.next, false)
      else if h.End() > s.end then Read(s.Truncated(h), s.next, true)
      else Read(h, s.next, true)
  }

  /** All the headers that are still going to come out. */
  function Remaining(s: Mdat): seq<FrameHeader>
    requires s.InBounds()
    decreases |s.frames| - s.next, s.end - s.offset
  {
    var c := Choose(s);
    if c.Read? then [c.header] + Remaining(s.After(c.header, c.NextIndex())) else []
  }

  /** The headers produced when the body is cut without an index; their offsets
      count from the start of the body. */
  function RawPieces(begin: int, end: int, offset: int): seq<FrameHeader>
    requires begin <= offset <= end
    decreases end - offset
  {
    if offset == end then []
    else
      var size := if end - offset < RAW_SPLIT_SIZE then end - offset else RAW_SPLIT_SIZE;
      [FrameHeader(offset - begin, size, 0, 0, 0, 0, RawFrame, false)] + RawPieces(begin, end, offset + size)
  }

  lemma {:induction false} FirstInRangeAnywhere(s: Mdat, s': Mdat, k: nat)
    requires s'.begin == s.begin && s'.end == s.end && s'.frames == s.frames && k <= |s.frames|
    ensures s'.FirstInRange(k) == s.FirstInRange(k)
    decreases |s.frames| - k
  {
    if k < |s.frames| && !s.InRange(k) {
      FirstInRangeAnywhere(s, s', k + 1);
    }
  }

  /** `Safe` is exactly the condition under which reading trips no check. */
  lemma {:induction false} SafeIff(s: Mdat)
    requires s.InBounds() && (s.prev.Some? ==> s.prev.value.End() == s.offset)
    ensures s.Safe() <==> !Choose(s).CheckFails?
    decreases |s.frames| - s.next
  {
    if s.next < |s.frames| && (!s.InRange(s.next) || (s.frames[s.next].offset < s.offset && s.prev.Some?)) {
      SafeIff(s.(next := s.next + 1));
      if s.prev.None? {
        FirstInRangeAnywhere(s, s.(next := s.next + 1), s.next + 1);
      }
    }
  }

  /** Reading the header chosen is one step along what remains. */
  lemma ReadStep(s: Mdat, s': Mdat, c: Choice)
    requires s.InBounds() && c == Choose(s) && c.Read? && s' == s.After(c.header, c.NextIndex())
    ensures s'.Safe() && Remaining(s) == [c.header] + Remaining(s')
  {
  }

  /** What remains depends on the position through the next choice only. */
  lemma SameChoice(s: Mdat, s': Mdat)
    requires s.InBounds() && s'.InBounds() && s' == s.(next := s'.next) && Choose(s') == Choose(s)
    ensures Remaining(s') == Remaining(s)
  {
  }

  // ----- The reader -----

  class MemoryStream {
    var data: seq<Byte>

    constructor ()
      ensures data == []
    {
      data := [];
    }

    method Append(bytes: seq<Byte>)
      modifies this
      ensures data == old(data) + bytes
    {
      data := data + bytes;
    }

    method Take(n: nat) returns (bytes: seq<Byte>)
      requires n <= |data|
      modifies this
      ensures bytes == old(data)[..n] && data == old(data)[n..]
    {
      bytes := data[..n];
      data := data[n..];
    }
  }

  class Decoder {
    var hasMdat: bool
    var mdatBegin: int
    var mdatEnd: int
    var mdatOffset: int
    var mdatFrames: seq<FrameHeader>
    var mdatNext: nat
    var mdatPrevFrame: Option<FrameHeader>
    var splitRawFrames: bool

    function State(): Mdat
      reads this
    {
      Mdat(mdatBegin, mdatEnd, mdatOffset, mdatFrames, mdatNext, mdatPrevFrame)
    }

    /** No check fires on the next read. */
    ghost predicate Valid()
      reads this
    {
      && hasMdat && State().Safe()
      && (splitRawFrames ==> mdatFrames == [] && mdatPrevFrame.None?)
    }

    /** Headers still to come out of the current MDAT. */
    ghost function Rest(): seq<FrameHeader>
      requires Valid()
      reads this
    {
      if splitRawFrames then RawPieces(mdatBegin, mdatEnd, mdatOffset) else Remaining(State())
    }

    constructor (splitRawFrames: bool)
      ensures !hasMdat && this.splitRawFrames == splitRawFrames && mdatFrames == []
    {
      hasMdat, this.splitRawFrames := false, splitRawFrames;
      mdatBegin, mdatEnd, mdatOffset := 0, 0, 0;
      mdatFrames, mdatNext, mdatPrevFrame := [], 0, None;
    }

    /** On MOOV: lists the frames of both tracks in file order. */
    method BuildFrames(audioTrack: Track, videoTrack: Track)
      requires mdatFrames == []
      modifies this`mdatFrames
      ensures mdatFrames == if splitRawFrames then [] else Merge(Headers(audioTrack, true), Headers(videoTrack, false))
    {
      if splitRawFrames {
        return;
      }
      var audio := ExtractFrames(audioTrack, true);
      var video := ExtractFrames(videoTrack, false);
      mdatFrames := MergeTracks(audio, video);
    }

    /** On an MDAT atom header: frame reading starts at the body. */
    method EnterMdat(begin: int, end: int)
      requires splitRawFrames ==> mdatFrames == []
      requires !hasMdat && begin <= end && mdatNext == 0 && mdatPrevFrame.None?
      modifies this`hasMdat, this`mdatBegin, this`mdatEnd, this`mdatOffset
      ensures Valid() && State() == Mdat(begin, end, begin, mdatFrames, 0, None)
    {
      hasMdat := true;
      mdatBegin, mdatEnd, mdatOffset := begin, end, begin;
    }

    method ClearFrames()
      modifies this
      ensures !hasMdat && State() == Mdat(0, 0, 0, [], 0, None) && splitRawFrames == old(splitRawFrames)
    {
      mdatFrames, mdatNext, mdatPrevFrame := [], 0, None;
      hasMdat, mdatBegin, mdatEnd, mdatOffset := false, 0, 0, 0;
    }

    /** Moves past the headers that cannot be read and decides what comes next. */
    method SelectHeader() returns (finished: bool, header: FrameHeader, advanceToNextFrame: bool)
      requires Valid()
      modifies this`mdatNext
      ensures State() == old(State()).(next := mdatNext) && State().InBounds()
      ensures Choose(State()) == Choose(old(State()))
      ensures Choose(State()) == if finished then Finished else Read(header, mdatNext, advanceToNextFrame)
    {
      SafeIff(State());
      finished, header, advanceToNextFrame := false, State().Filler(mdatOffset), false;
      while true
        invariant State() == old(State()).(next := mdatNext) && State().InBounds()
        invariant Choose(State()) == Choose(old(State()))
        invariant !Choose(State()).CheckFails?
        decreases |mdatFrames| - mdatNext
      {
        if mdatNext >= |mdatFrames| {
          assert mdatNext == |mdatFrames|;
          if mdatOffset >= mdatEnd {
            assert mdatOffset == mdatEnd;
            finished := true;
            return;
          }
          header := State().Filler(mdatEnd);
          return;
        }
        var frameHeader := mdatFrames[mdatNext];
        if frameHeader.offset < mdatBegin {
          mdatNext := mdatNext + 1;
          continue;
        }
        if frameHeader.offset >= mdatEnd {
          mdatNext := mdatNext + 1;
          continue;
        }
        if frameHeader.offset < mdatOffset {
          assert mdatPrevFrame.Some?;
          mdatNext := mdatNext + 1;
          continue;
        }
        assert mdatOffset <= frameHeader.offset;
        if mdatOffset < frameHeader.offset {
          var rawEnd := if frameHeader.offset < mdatEnd then frameHeader.offset else mdatEnd;
          header := State().Filler(rawEnd);
          return;
        }
        assert mdatOffset == frameHeader.offset;
        var frameEnd := frameHeader.offset + frameHeader.size;
        advanceToNextFrame := true;
        if frameEnd > mdatEnd {
          header := State().Truncated(frameHeader);
          return;
        }
        assert frameHeader.offset >= mdatBegin && frameEnd <= mdatEnd;
        header := frameHeader;
        return;
      }
    }

    /** Reads one frame. Without enough input nothing is consumed and the frames
        still to come do not change, whatever headers were skipped meanwhile. */
    method IOReadFrame(input: MemoryStream) returns (status: Status, out: Option<Frame>)
      requires Valid() && !splitRawFrames
      modifies this`mdatNext, this`mdatOffset, this`mdatPrevFrame, input
      ensures Valid()
      ensures status == NoData ==>
        && out == None && Rest() == old(Rest()) != [] && input.data == old(input.data)
        && |input.data| < Rest()[0].size
        && mdatOffset == old(mdatOffset)
      ensures status == Success && out == None ==> old(Rest()) == [] && Rest() == [] && input.data == old(input.data)
      ensures status == Success && out.Some? ==>
        && old(Rest()) == [out.value.header] + Rest()
        && out.value.header.size <= |old(input.data)|
        && out.value.data == old(input.data)[..out.value.header.size]
        && input.data == old(input.data)[out.value.header.size..]
        && mdatOffset == old(mdatOffset) + out.value.header.size
    {
      out, status := None, Success;
      assert mdatBegin <= mdatOffset <= mdatEnd;
      assert mdatPrevFrame.Some? ==> mdatPrevFrame.value.End() == mdatOffset;
      ghost var before := State();
      var finished, header, advanceToNextFrame := SelectHeader();
      SafeIff(State());
      SameChoice(before, State());
      if finished {
        return;
      }
      if |input.data| < header.size {
        status := NoData;
        return;
      }
      var data := input.Take(header.size);
      mdatOffset := mdatOffset + header.size;
      mdatPrevFrame := Some(header);
      if advanceToNextFrame {
        mdatNext := mdatNext + 1;
      }
      ReadStep(before, State(), Choose(before));
      out := Some(Frame(header, data));
    }

    /** Reads the next frame; at the end of the body the frame list is dropped. */
    method ReadFrame(input: MemoryStream) returns (status: Status, out: Option<Frame>)
      requires Valid()
      modifies this, input
      ensures splitRawFrames == old(splitRawFrames)
      ensures status == NoData ==>
        && Valid() && out == None && Rest() == old(Rest()) != [] && input.data == old(input.data)
        && |input.data| < Rest()[0].size
        && mdatEnd - mdatOffset == old(mdatEnd - mdatOffset)
      ensures status == Success && out == None ==> old(Rest()) == [] && !hasMdat && input.data == old(input.data)
      ensures status == Success && out.Some? ==>
        && Valid() && old(Rest()) == [out.value.header] + Rest()
        && out.value.header.size <= |old(input.data)|
        && out.value.data == old(input.data)[..out.value.header.size]
        && input.data == old(input.data)[out.value.header.size..]
        && mdatEnd - mdatOffset == old(mdatEnd - mdatOffset) - out.value.header.size
    {
      out := None;
      if splitRawFrames {
        var rawFrameSize := if mdatEnd - mdatOffset < RAW_SPLIT_SIZE then mdatEnd - mdatOffset else RAW_SPLIT_SIZE;
        if rawFrameSize == 0 {
          ClearFrames();
          status := Success;
          return;
        }
        if |input.data| < rawFrameSize {
          status := NoData;
          return;
        }
        var header := FrameHeader(mdatOffset - mdatBegin, rawFrameSize, 0, 0, 0, 0, RawFrame, false);
        var data := input.Take(rawFrameSize);
        out := Some(Frame(header, data));
        mdatOffset := mdatOffset + rawFrameSize;
        status := Success;
        return;
      }
      status, out := IOReadFrame(input);
      if status == Success && out == None {
        ClearFrames();
      }
    }

    /** Seeks to a frame, or to the closest keyframe at or before it; without one
        the search stops at the first frame. */
    method SeekToFrame(desiredFrame: nat, toKeyframe: bool) returns (ok: bool, outFrame: nat, outFileOffset: int)
      modifies this`mdatNext, this`mdatOffset, this`mdatPrevFrame
      ensures ok <==> old(hasMdat) && desiredFrame < |mdatFrames|
      ensures !ok ==> State() == old(State())
      ensures ok ==>
        && outFrame == SeekTarget(mdatFrames, desiredFrame, toKeyframe)
        && (!toKeyframe ==> outFrame == desiredFrame)
        && outFileOffset == mdatFrames[outFrame].offset
        && State() == old(State()).(offset := outFileOffset, next := outFrame, prev := None)
    {
      ok, outFrame, outFileOffset := false, 0, 0;
      if !hasMdat {
        return;
      }
      if desiredFrame >= |mdatFrames| {
        return;
      }
      var frame := desiredFrame;
      if toKeyframe {
        while frame > 0 && !mdatFrames[frame].keyframe
          invariant 0 <= frame < |mdatFrames|
          invariant SeekTarget(mdatFrames, frame, true) == SeekTarget(mdatFrames, desiredFrame, true)
        {
          frame := frame - 1;
        }
      }
      mdatNext := frame;
      mdatOffset := mdatFrames[mdatNext].offset;
      mdatPrevFrame := None;
      ok, outFrame, outFileOffset := true, frame, mdatOffset;
    }

    /** Seeks to the last frame before the first one later than `time`. */
    method SeekToTime(time: int, toKeyframe: bool) returns (ok: bool, outFrame: nat, outFileOffset: int)
      modifies this`mdatNext, this`mdatOffset, this`mdatPrevFrame
      ensures mdatFrames == [] ==> ok == (time == 0) && State() == old(State())
      ensures mdatFrames != [] ==>
        && ok == old(hasMdat)
        && (ok ==>
              && outFrame == SeekTarget(mdatFrames, FrameAtTime(mdatFrames, time), toKeyframe)
              && outFileOffset == mdatFrames[outFrame].offset
              && State() == old(State()).(offset := outFileOffset, next := outFrame, prev := None))
    {
      if mdatFrames == [] {
        ok, outFrame, outFileOffset := time == 0, 0, 0;
        return;
      }
      var foi := 0;
      while foi < |mdatFrames| && mdatFrames[foi].decodingTimestamp <= time
        invariant 0 <= foi <= |mdatFrames|
        invariant foi + UpToTime(mdatFrames[foi..], time) == UpToTime(mdatFrames, time)
      {
        assert mdatFrames[foi..][1..] == mdatFrames[foi + 1..];
        foi := foi + 1;
      }
      if foi > 0 {
        foi := foi - 1;
      }
      ok, outFrame, outFileOffset := SeekToFrame(foi, toKeyframe);
    }

    /** The timestamp and file offset of every keyframe. */
    method GenerateCuePoints() returns (cuePoints: seq<CuePoint>)
      ensures cuePoints == CuePoints(mdatFrames)
    {
      cuePoints := [];
      for i := 0 to |mdatFrames|
        invariant cuePoints == CuePoints(mdatFrames[..i])
      {
        assert mdatFrames[..i + 1][..i] == mdatFrames[..i];
        var frame := mdatFrames[i];
        if !frame.keyframe {
          continue;
        }
        cuePoints := cuePoints + [CuePoint(frame.decodingTimestamp, frame.offset)];
      }
      assert mdatFrames[..|mdatFrames|] == mdatFrames;
    }
  }

  // ----- Seeking -----

  datatype CuePoint = CuePoint(time: int, fileOffset: int)

  /** The frame a seek lands on. */
  function SeekTarget(frames: seq<FrameHeader>, frame: nat, toKeyframe: bool): (f: nat)
    requires frame < |frames|
    ensures f <= frame
    decreases frame
  {
    if toKeyframe && frame > 0 && !frames[frame].keyframe then SeekTarget(frames, frame - 1, true) else frame
  }

  /** Number of leading frames not later than `time`. */
  function UpToTime(frames: seq<FrameHeader>, time: int): (n: nat)
    ensures n <= |frames|
  {
    if frames != [] && frames[0].decodingTimestamp <= time then 1 + UpToTime(frames[1..], time) else 0
  }

  function FrameAtTime(frames: seq<FrameHeader>, time: int): (f: nat)
    requires frames != []
    ensures f < |frames|
  {
    var n := UpToTime(frames, time);
    if n > 0 then n - 1 else 0
  }

  function CuePoints(frames: seq<FrameHeader>): seq<CuePoint> {
    if frames == [] then []
    else
      var f := frames[|frames| - 1];
      CuePoints(frames[..|frames| - 1]) + if f.keyframe then [CuePoint(f.decodingTimestamp, f.offset)] else []
  }

  ghost predicate SortedByTime(cuePoints: seq<CuePoint>) {
    forall i, j :: 0 <= i < j < |cuePoints| ==> cuePoints[i].time <= cuePoints[j].time
  }

  /** Binary search for the cue point in force at time t; -1 on an empty table,
      the first cue point when t comes before all of them. */
  method GetCueForTime(cuePoints: seq<CuePoint>, t: int) returns (cue: int)
    ensures -1 <= cue < |cuePoints|
    ensures cuePoints == [] <==> cue == -1
    ensures cuePoints != [] && t < 0 ==> cue == 0
    ensures t >= 0 && cue > 0 ==> cuePoints[cue].time <= t
    ensures t >= 0 && 0 <= cue < |cuePoints| - 1 ==> t < cuePoints[cue + 1].time
    ensures t >= 0 && SortedByTime(cuePoints) ==> forall i :: cue < i < |cuePoints| ==> t < cuePoints[i].time
  {
    if cuePoints == [] {
      return -1;
    }
    if t < 0 {
      return 0;
    }
    var l, r := 0, |cuePoints|;
    while l + 1 < r
      invariant 0 <= l < r <= |cuePoints|
      invariant l > 0 ==> cuePoints[l].time <= t
      invariant r < |cuePoints| ==> t < cuePoints[r].time
    {
      var mid := (r + l) / 2;
      if cuePoints[mid].time <= t {
        l := mid;
      } else {
        r := mid;
      }
    }
    cue := l;
  }
}
