/** Writing a stream of frames as an F4V file. */
module Serializer {
  import opened Media
  import opened Muxer
  import opened Demuxer
  import opened FileReading
  import opened RoundTrip

  datatype MediaTag = MediaTag(isAudio: bool, isVideo: bool, data: seq<Byte>)

  predicate IsFrameMatch(tag: MediaTag, timestamp: int, frame: MediaFrame) {
    && !(tag.isAudio && !frame.isAudio)
    && !(tag.isVideo && frame.isAudio)
    && |tag.data| == frame.size
    && timestamp == frame.decodingTs
  }

  method FramesSize(frames: seq<MediaFrame>) returns (size: nat)
    ensures size == Total(frames)
  {
    size := 0;
    for i := 0 to |frames|
      invariant size == Position(frames, i)
    {
      size := size + frames[i].size;
    }
  }

  /** What becomes of a media tag. `PastIndex`: all indexed frames have been written
      and the entry behind the last one would be read. */
  datatype Outcome = Matched | Mismatched | NoIndex | PastIndex

  function OutcomeOf(tag: MediaTag, timestamp: int, frames: seq<MediaFrame>, frameIndex: nat): Outcome {
    if frames == [] then NoIndex
    else if frameIndex >= |frames| then PastIndex
    else if IsFrameMatch(tag, timestamp, frames[frameIndex]) then Matched
    else Mismatched
  }

  class Serializer {
    var frames: seq<MediaFrame>
    var frameIndex: nat
    var mdatHeaderWritten: bool
    var failed: bool
    // the body size announced in the MDAT header, and what has followed it
    var declaredSize: nat
    var body: seq<Byte>
    // bytes written for tags that did not match the frame expected next
    ghost var strayBytes: nat

    ghost predicate Valid()
      reads this
    {
      && frameIndex <= |frames|
      && |body| == Position(frames, frameIndex) + strayBytes
      && (mdatHeaderWritten ==> declaredSize == Total(frames))
      && (!mdatHeaderWritten ==> body == [])
    }

    constructor (frames: seq<MediaFrame>)
      ensures Valid() && this.frames == frames && frameIndex == 0 && !failed && body == [] && strayBytes == 0
      ensures !mdatHeaderWritten
    {
      this.frames := frames;
      frameIndex, mdatHeaderWritten, failed := 0, false, false;
      declaredSize, body, strayBytes := 0, [], 0;
    }

    /** Writes a frame. A tag that is not the frame expected next is passed
        through all the same, which moves every later frame by its size. When all
        indexed frames have been written, the source reads behind the end of its
        list; the model stops there. */
    method SerializeFrame(tag: MediaTag, timestamp: int) returns (outcome: Outcome)
      requires Valid() && !failed
      modifies this
      ensures Valid() && frames == old(frames)
      ensures outcome == OutcomeOf(tag, timestamp, frames, old(frameIndex))
      ensures outcome.Matched? <==>
        && old(frameIndex) < |frames|
        && var frame := frames[old(frameIndex)];
           && (tag.isAudio ==> frame.isAudio) && (tag.isVideo ==> !frame.isAudio)
           && |tag.data| == frame.size && timestamp == frame.decodingTs
      ensures failed <==> outcome.NoIndex?
      ensures mdatHeaderWritten <==> old(mdatHeaderWritten) || !outcome.NoIndex?
      ensures body == if outcome.Matched? || outcome.Mismatched? then old(body) + tag.data else old(body)
      ensures frameIndex == old(frameIndex) + if outcome.Matched? then 1 else 0
      ensures strayBytes == old(strayBytes) + if outcome.Mismatched? then |tag.data| else 0
    {
      if frames == [] {
        failed := true;
        return NoIndex;
      }
      if !mdatHeaderWritten {
        declaredSize := FramesSize(frames);
        mdatHeaderWritten := true;
      }
      if frameIndex >= |frames| {
        return PastIndex;
      }
      if !IsFrameMatch(tag, timestamp, frames[frameIndex]) {
        body := body + tag.data;
        strayBytes := strayBytes + |tag.data|;
        return Mismatched;
      }
      body := body + tag.data;
      frameIndex := frameIndex + 1;
      return Matched;
    }
  }

  datatype TimedTag = TimedTag(tag: MediaTag, timestamp: int)

  function Bodies(tags: seq<TimedTag>): seq<Byte> {
    if tags == [] then [] else Bodies(tags[..|tags| - 1]) + tags[|tags| - 1].tag.data
  }

  ghost predicate AllMatch(tags: seq<TimedTag>, frames: seq<MediaFrame>) {
    |tags| == |frames| &&
    forall i :: 0 <= i < |tags| ==> IsFrameMatch(tags[i].tag, tags[i].timestamp, frames[i])
  }

  /** How many frames of the index the first n tags have matched. */
  function IndexAfter(tags: seq<TimedTag>, frames: seq<MediaFrame>, n: nat): (i: nat)
    requires n <= |tags|
    ensures i <= |frames| && i <= n
  {
    if n == 0 then 0
    else
      var before := IndexAfter(tags, frames, n - 1);
      if OutcomeAt(tags[n - 1], frames, before).Matched? then before + 1 else before
  }

  function OutcomeAt(t: TimedTag, frames: seq<MediaFrame>, frameIndex: nat): Outcome {
    OutcomeOf(t.tag, t.timestamp, frames, frameIndex)
  }

  /** Tag n is written as the frame expected next. */
  predicate MatchedAt(tags: seq<TimedTag>, frames: seq<MediaFrame>, n: nat)
    requires n < |tags|
  {
    OutcomeAt(tags[n], frames, IndexAfter(tags, frames, n)).Matched?
  }

  /** Every tag finds a frame to be compared with. */
  predicate StaysInIndex(tags: seq<TimedTag>, frames: seq<MediaFrame>) {
    StaysUpTo(tags, frames, |tags|)
  }

  predicate StaysUpTo(tags: seq<TimedTag>, frames: seq<MediaFrame>, m: nat)
    requires m <= |tags|
  {
    forall n :: 0 <= n < m ==> IndexAfter(tags, frames, n) < |frames|
  }

  /** What one more tag does to a run. */
  lemma RunStep(tags: seq<TimedTag>, frames: seq<MediaFrame>, i: nat, outcome: Outcome)
    requires i < |tags| && StaysUpTo(tags, frames, i)
    requires outcome == OutcomeAt(tags[i], frames, IndexAfter(tags, frames, i))
    ensures if outcome.PastIndex? || outcome.NoIndex? then !StaysInIndex(tags, frames)
            else StaysUpTo(tags, frames, i + 1)
    ensures IndexAfter(tags, frames, i + 1) == IndexAfter(tags, frames, i) + if outcome.Matched? then 1 else 0
  {
  }

  lemma BodiesStep(tags: seq<TimedTag>, i: nat)
    requires i < |tags|
    ensures Bodies(tags[..i + 1]) == Bodies(tags[..i]) + tags[i].tag.data
  {
    assert tags[..i + 1][..i] == tags[..i];
  }

  /** Serializes any series of media tags, until one comes that the index has no
      entry for. */
  method SerializeRun(tags: seq<TimedTag>, frames: seq<MediaFrame>)
      returns (body: seq<Byte>, declaredSize: nat, outcome: Outcome)
    ensures outcome.PastIndex? || outcome.NoIndex? <==> !StaysInIndex(tags, frames)
    ensures StaysInIndex(tags, frames) ==> body == Bodies(tags)
    ensures StaysInIndex(tags, frames) && tags != [] ==> declaredSize == Total(frames)
  {
    var s := new Serializer(frames);
    outcome := Matched;
    for i := 0 to |tags|
      invariant fresh(s) && s.Valid() && !s.failed && s.frames == frames && s.frameIndex == IndexAfter(tags, frames, i)
      invariant s.body == Bodies(tags[..i]) && (s.mdatHeaderWritten <==> i > 0)
      invariant outcome.Matched? || outcome.Mismatched?
      invariant StaysUpTo(tags, frames, i)
    {
      BodiesStep(tags, i);
      outcome := s.SerializeFrame(tags[i].tag, tags[i].timestamp);
      RunStep(tags, frames, i, outcome);
      if outcome.PastIndex? || outcome.NoIndex? {
        return s.body, s.declaredSize, outcome;
      }
    }
    assert tags[..|tags|] == tags;
    body, declaredSize := s.body, s.declaredSize;
  }

  /** Two tags and an index of one frame: the second tag finds no entry. */
  lemma SecondTagIsPastIndex(byte: Byte)
    ensures var tag := TimedTag(MediaTag(true, false, [byte]), 0);
      !StaysInIndex([tag, tag], [MediaFrame(true, 1, 0, false)])
  {
    var tag, frames := TimedTag(MediaTag(true, false, [byte]), 0), [MediaFrame(true, 1, 0, false)];
    assert IndexAfter([tag, tag], frames, 0) == 0;
    assert IndexAfter([tag, tag], frames, 1) == 1;
  }

  lemma {:induction false} MatchingStaysInIndex(tags: seq<TimedTag>, frames: seq<MediaFrame>, n: nat)
    requires AllMatch(tags, frames) && n <= |tags|
    ensures IndexAfter(tags, frames, n) == n
  {
    if n > 0 {
      MatchingStaysInIndex(tags, frames, n - 1);
    }
  }

  /** With the tags that the index was made for, the body has the declared size. */
  method SerializeAll(tags: seq<TimedTag>, frames: seq<MediaFrame>) returns (body: seq<Byte>, declaredSize: nat)
    requires AllMatch(tags, frames) && frames != []
    ensures body == Bodies(tags) && |body| == declaredSize == Total(frames)
  {
    forall n | 0 <= n < |tags| ensures IndexAfter(tags, frames, n) < |frames| {
      MatchingStaysInIndex(tags, frames, n);
    }
    var outcome;
    body, declaredSize, outcome := SerializeRun(tags, frames);
    BodiesSize(tags, frames);
  }

  // ----- Tags that do not match -----

  /** The bytes written for the mismatched ones among the first n tags. */
  function Stray(tags: seq<TimedTag>, frames: seq<MediaFrame>, n: nat): nat
    requires n <= |tags|
  {
    if n == 0 then 0
    else Stray(tags, frames, n - 1) + if MatchedAt(tags, frames, n - 1) then 0 else |tags[n - 1].tag.data|
  }

  lemma {:induction false} WrittenSize(tags: seq<TimedTag>, frames: seq<MediaFrame>, n: nat)
    requires n <= |tags|
    ensures |Bodies(tags[..n])| == Position(frames, IndexAfter(tags, frames, n)) + Stray(tags, frames, n)
  {
    if n > 0 {
      WrittenSize(tags, frames, n - 1);
      assert tags[..n][..n - 1] == tags[..n - 1];
    }
  }

  lemma {:induction false} StrayIff(tags: seq<TimedTag>, frames: seq<MediaFrame>, n: nat)
    requires n <= |tags|
    ensures Stray(tags, frames, n) == 0 <==>
      forall i :: 0 <= i < n && !MatchedAt(tags, frames, i) ==> tags[i].tag.data == []
  {
    if n > 0 {
      StrayIff(tags, frames, n - 1);
    }
  }

  /** The frame written for tag n starts where the index has it. */
  predicate InPlace(tags: seq<TimedTag>, frames: seq<MediaFrame>, n: nat)
    requires n < |tags|
  {
    |Bodies(tags[..n])| == Position(frames, IndexAfter(tags, frames, n))
  }

  /** For any series of tags: every frame written is where the index says if and only
      if no data were passed through for a mismatched tag ahead of a matching one. */
  lemma FramesInPlaceIff(tags: seq<TimedTag>, frames: seq<MediaFrame>)
    ensures (forall n :: 0 <= n < |tags| && MatchedAt(tags, frames, n) ==> InPlace(tags, frames, n)) <==>
      (forall i, n :: 0 <= i < n < |tags| && !MatchedAt(tags, frames, i) && MatchedAt(tags, frames, n) ==>
        tags[i].tag.data == [])
  {
    forall n | 0 <= n < |tags|
      ensures InPlace(tags, frames, n) <==>
        forall i :: 0 <= i < n && !MatchedAt(tags, frames, i) ==> tags[i].tag.data == []
    {
      WrittenSize(tags, frames, n);
      StrayIff(tags, frames, n);
    }
  }

  /** One video tag where an audio frame is due, and the frame itself lands behind it. */
  lemma MismatchMovesFrame(byte: Byte)
    ensures var frames := [MediaFrame(true, 1, 0, false)];
      var tags := [TimedTag(MediaTag(false, true, [byte]), 0), TimedTag(MediaTag(true, false, [byte]), 0)];
      && StaysInIndex(tags, frames) && MatchedAt(tags, frames, 1) && !InPlace(tags, frames, 1)
  {
    var frames := [MediaFrame(true, 1, 0, false)];
    var tags := [TimedTag(MediaTag(false, true, [byte]), 0), TimedTag(MediaTag(true, false, [byte]), 0)];
    assert IndexAfter(tags, frames, 0) == 0 && IndexAfter(tags, frames, 1) == 0;
    assert tags[..1][..0] == [] && Bodies(tags[..1]) == [byte];
  }

  // ----- Tags that match -----

  lemma {:induction false} BodyAt(tags: seq<TimedTag>, frames: seq<MediaFrame>, n: nat, i: nat)
    requires AllMatch(tags, frames) && i < n <= |frames|
    ensures |Bodies(tags[..n])| == Position(frames, n)
    ensures Position(frames, i) + frames[i].size <= Position(frames, n)
    ensures Bodies(tags[..n])[Position(frames, i)..Position(frames, i) + frames[i].size] == tags[i].tag.data
  {
    assert tags[..n][..n - 1] == tags[..n - 1];
    if n == 1 {
      assert tags[..0] == [] && Bodies(tags[..0]) == [];
      assert Position(frames, 1) == Position(frames, 0) + frames[0].size;
    } else {
      BodyAt(tags, frames, n - 1, if i < n - 1 then i else 0);
    }
  }

  lemma BodiesSize(tags: seq<TimedTag>, frames: seq<MediaFrame>)
    requires AllMatch(tags, frames)
    ensures |Bodies(tags)| == Total(frames)
  {
    if frames != [] {
      BodyAt(tags, frames, |frames|, 0);
      assert tags[..|frames|] == tags;
    }
  }

  /** The whole way round, bytes included: serialize the frames, announce them in
      the index, demux the body, and every frame comes back with its own data. */
  lemma {:induction false} SerializeThenDemux(tags: seq<TimedTag>, frames: seq<MediaFrame>, headers: seq<FrameHeader>,
      base: nat)
    requires AllMatch(tags, frames) && Distinguishable(frames) && |headers| == |frames|
    requires forall i :: 0 <= i < |frames| ==> Describes(headers[i], frames, i, base)
    ensures var cut := Cut(Remaining(WholeBody(headers, frames, base)), Bodies(tags));
      |cut| == |frames| && forall i :: 0 <= i < |frames| ==> cut[i] == Frame(headers[i], tags[i].tag.data)
  {
    DescribedIsRead(headers, frames, base);
    DescribedIsLaid(headers, frames, base);
    BodiesSize(tags, frames);
    CutOfBody(headers, Bodies(tags), base, base + Total(frames));
    forall i | 0 <= i < |frames| ensures Cut(headers, Bodies(tags))[i] == Frame(headers[i], tags[i].tag.data) {
      OwnData(tags, frames, headers, base, Cut(headers, Bodies(tags))[i], i);
    }
  }

  lemma {:induction false} OwnData(tags: seq<TimedTag>, frames: seq<MediaFrame>, headers: seq<FrameHeader>, base: nat,
      f: Frame, i: nat)
    requires AllMatch(tags, frames) && |headers| == |frames| && i < |frames|
    requires Describes(headers[i], frames, i, base) && HoldsBytes(f, headers[i], Bodies(tags), base)
    ensures f == Frame(headers[i], tags[i].tag.data)
  {
    assert tags[..|tags|] == tags;
    BodyAt(tags, frames, |frames|, i);
  }
}
