/** What the joiner keeps of a tag, in bytes, and that it all comes back. */
module JoinerFacts {
  import opened Media
  import opened Muxer
  import opened Demuxer
  import opened FileReading
  import opened MuxerFacts
  import opened RoundTrip
  import opened Serializer
  import opened Joiner

  /** The configuration of a codec that the metadata announced. */
  predicate IsConfiguration(tag: FlvTag, aac: bool, avc: bool) {
    || (tag.Audio? && aac && |tag.data| >= 2 && tag.data[0] == 0xaf && tag.data[1] == 0)
    || (tag.Video? && avc && |tag.data| >= 5 && tag.data[0] == 0x17
        && tag.data[1] == tag.data[2] == tag.data[3] == tag.data[4] == 0)
  }

  predicate IsMedia(tag: FlvTag, aac: bool, avc: bool) {
    (tag.Audio? || tag.Video?) && !IsConfiguration(tag, aac, avc)
  }

  /** The size of the codec header that a media tag begins with. */
  function HeaderSize(tag: FlvTag, aac: bool, avc: bool): (n: nat)
    ensures tag.Audio? || tag.Video? ==> n <= |tag.data|
  {
    if tag.Audio? && aac && |tag.data| >= 2 && tag.data[0] == 0xaf && tag.data[1] == 1 then 2
    else if tag.Video? && avc && |tag.data| >= 5 && (tag.data[0] == 0x17 || tag.data[0] == 0x27) && tag.data[1] == 1
            && tag.data[2] == tag.data[3] == tag.data[4] == 0 then 5
    else 0
  }

  lemma StartsWith(data: seq<Byte>, prefix: seq<Byte>)
    ensures prefix <= data <==> |prefix| <= |data| && forall i :: 0 <= i < |prefix| ==> data[i] == prefix[i]
  {
  }

  /** What is kept of any tag: nothing of a configuration and of what is no media,
      everything behind the codec header otherwise. */
  lemma PayloadMeans(tag: FlvTag, codecs: Codecs)
    ensures Payload(tag, codecs) ==
      if IsMedia(tag, codecs.aac, codecs.avc) then Some(tag.data[HeaderSize(tag, codecs.aac, codecs.avc)..]) else None
  {
    if tag.Audio? {
      StartsWith(tag.data, AAC_INIT);
      StartsWith(tag.data, AAC_FRAME);
    }
    if tag.Video? {
      StartsWith(tag.data, AVC_INIT);
      StartsWith(tag.data, AVC_KEYFRAME);
      StartsWith(tag.data, AVC_FRAME);
    }
  }

  /** With both codecs announced, tag by tag in bytes. */
  lemma KeptBytes(rest: seq<Byte>, keyframe: bool, configOk: bool)
    ensures var both := Codecs(true, true);
      && Payload(Audio([0xaf, 0x01] + rest), both) == Some(rest)
      && Payload(Audio([0xaf, 0x00] + rest), both) == None
      && Payload(Video([0x17, 1, 0, 0, 0] + rest, keyframe, configOk), both) == Some(rest)
      && Payload(Video([0x27, 1, 0, 0, 0] + rest, keyframe, configOk), both) == Some(rest)
      && Payload(Video([0x17, 0, 0, 0, 0] + rest, keyframe, configOk), both) == None
  {
    var both := Codecs(true, true);
    PayloadMeans(Audio([0xaf, 0x01] + rest), both);
    PayloadMeans(Audio([0xaf, 0x00] + rest), both);
    PayloadMeans(Video([0x17, 1, 0, 0, 0] + rest, keyframe, configOk), both);
    PayloadMeans(Video([0x27, 1, 0, 0, 0] + rest, keyframe, configOk), both);
    PayloadMeans(Video([0x17, 0, 0, 0, 0] + rest, keyframe, configOk), both);
  }

  /** The metadata that counts is the first. */
  ghost predicate FirstMetadata(tags: seq<FlvTag>, m: nat) {
    && m < |tags| && tags[m].Metadata? && tags[m].isOnMetaData
    && forall k :: 0 <= k < m ==> !(tags[k].Metadata? && tags[k].isOnMetaData)
  }

  lemma FirstMetadataIs(tags: seq<FlvTag>, m: nat)
    requires FirstMetadata(tags, m)
    ensures MetaIndex(tags, 0) == m && CodecsOf(tags) == Codecs(tags[m].aac, tags[m].avc)
  {
  }

  /** Joining succeeds when every announced codec has a configuration behind the
      metadata, for AVC one that can be decoded. */
  lemma ConfiguredIff(tags: seq<FlvTag>, m: nat)
    requires FirstMetadata(tags, m)
    ensures var aac, avc := tags[m].aac, tags[m].avc;
      Configured(tags) <==>
        && (aac ==> exists k :: m < k < |tags| && IsConfiguration(tags[k], aac, avc) && tags[k].Audio?)
        && (avc ==>
              exists k :: m < k < |tags| && IsConfiguration(tags[k], aac, avc) && tags[k].Video? && tags[k].configOk)
  {
    FirstMetadataIs(tags, m);
    forall k | m < k < |tags|
      ensures tags[k].Audio? || tags[k].Video? ==>
        (Payload(tags[k], CodecsOf(tags)) == None <==> IsConfiguration(tags[k], tags[m].aac, tags[m].avc))
    {
      PayloadMeans(tags[k], CodecsOf(tags));
    }
  }

  /** The positions of the media tags behind the metadata. */
  function MediaPositions(tags: seq<FlvTag>, m: nat, n: nat): (p: seq<nat>)
    requires m < |tags| && tags[m].Metadata? && n <= |tags|
    ensures forall i :: 0 <= i < |p| ==> m < p[i] < n && IsMedia(tags[p[i]], tags[m].aac, tags[m].avc)
  {
    if n <= m + 1 then []
    else MediaPositions(tags, m, n - 1) + if IsMedia(tags[n - 1], tags[m].aac, tags[m].avc) then [n - 1] else []
  }

  /** They are all there, in order. */
  lemma {:induction false} MediaPositionsAre(tags: seq<FlvTag>, m: nat, n: nat)
    requires m < |tags| && tags[m].Metadata? && n <= |tags|
    ensures var p := MediaPositions(tags, m, n);
      && (forall i, j :: 0 <= i < j < |p| ==> p[i] < p[j])
      && (forall k :: k in p <==> m < k < n && IsMedia(tags[k], tags[m].aac, tags[m].avc))
  {
    if n > m + 1 {
      MediaPositionsAre(tags, m, n - 1);
    }
  }

  /** The frame of the index that a media tag becomes. */
  function Listed(tag: FlvTag, aac: bool, avc: bool): MediaFrame
    requires tag.Audio? || tag.Video?
  {
    MediaFrame(tag.Audio?, |tag.data| - HeaderSize(tag, aac, avc), 0, tag.Video? && tag.keyframe)
  }

  ghost predicate IsListed(tag: FlvTag, aac: bool, avc: bool, frame: MediaFrame, content: TimedTag) {
    && (tag.Audio? || tag.Video?)
    && frame == Listed(tag, aac, avc) && content.tag.data == tag.data[HeaderSize(tag, aac, avc)..]
  }

  /** List entry i and content i are those of tag p[i]. */
  ghost predicate ListedAt(tags: seq<FlvTag>, codecs: Codecs, p: seq<nat>, frames: seq<MediaFrame>,
                           contents: seq<TimedTag>)
  {
    && |p| == |frames| == |contents|
    && forall i :: 0 <= i < |p| ==>
         p[i] < |tags| && IsListed(tags[p[i]], codecs.aac, codecs.avc, frames[i], contents[i])
  }

  /** One tag of the first pass. */
  lemma OneListed(tag: FlvTag, codecs: Codecs)
    ensures if IsMedia(tag, codecs.aac, codecs.avc)
            then |FrameOf(tag, codecs)| == |DataOf(tag, codecs)| == 1
              && IsListed(tag, codecs.aac, codecs.avc, FrameOf(tag, codecs)[0], DataOf(tag, codecs)[0])
            else FrameOf(tag, codecs) == [] && DataOf(tag, codecs) == []
  {
    PayloadMeans(tag, codecs);
  }

  lemma ListedGrows(tags: seq<FlvTag>, codecs: Codecs, p: seq<nat>, frames: seq<MediaFrame>, contents: seq<TimedTag>,
                    pos: nat, frame: MediaFrame, content: TimedTag)
    requires pos < |tags| && ListedAt(tags, codecs, p, frames, contents)
    requires IsListed(tags[pos], codecs.aac, codecs.avc, frame, content)
    ensures ListedAt(tags, codecs, p + [pos], frames + [frame], contents + [content])
  {
  }

  /** The codecs are those of tag m, the metadata that counts. */
  ghost predicate MetadataAt(tags: seq<FlvTag>, m: nat, codecs: Codecs) {
    && m < |tags| && tags[m].Metadata? && MetaIndex(tags, 0) == m
    && codecs == CodecsOf(tags) == Codecs(tags[m].aac, tags[m].avc)
  }

  lemma CountedStep(tags: seq<FlvTag>, m: nat, codecs: Codecs, n: nat)
    requires MetadataAt(tags, m, codecs) && m < n - 1 < |tags|
    ensures Counted(tags, n) == Counted(tags, n - 1) + FrameOf(tags[n - 1], codecs)
    ensures Contents(tags, n) == Contents(tags, n - 1) + DataOf(tags[n - 1], codecs)
    ensures MediaPositions(tags, m, n) ==
      MediaPositions(tags, m, n - 1) + if IsMedia(tags[n - 1], codecs.aac, codecs.avc) then [n - 1] else []
  {
  }

  lemma NothingCounted(tags: seq<FlvTag>, m: nat, codecs: Codecs)
    requires MetadataAt(tags, m, codecs)
    ensures Counted(tags, m + 1) == [] && Contents(tags, m + 1) == []
  {
    NoContentsYet(tags, m + 1);
    ContentsMatch(tags, m + 1);
  }

  lemma ListedStep(tags: seq<FlvTag>, codecs: Codecs, p: seq<nat>, frames: seq<MediaFrame>, contents: seq<TimedTag>,
                   pos: nat, p': seq<nat>, frames': seq<MediaFrame>, contents': seq<TimedTag>)
    requires pos < |tags| && ListedAt(tags, codecs, p, frames, contents)
    requires p' == p + if IsMedia(tags[pos], codecs.aac, codecs.avc) then [pos] else []
    requires frames' == frames + FrameOf(tags[pos], codecs)
    requires contents' == contents + DataOf(tags[pos], codecs)
    ensures ListedAt(tags, codecs, p', frames', contents')
  {
    OneListed(tags[pos], codecs);
    if IsMedia(tags[pos], codecs.aac, codecs.avc) {
      var frame, data := FrameOf(tags[pos], codecs), DataOf(tags[pos], codecs);
      assert frame == [frame[0]] && data == [data[0]];
      ListedGrows(tags, codecs, p, frames, contents, pos, frame[0], data[0]);
    } else {
      assert p + [] == p && frames + [] == frames && contents + [] == contents;
    }
  }

  lemma {:induction false} CountedAreMedia(tags: seq<FlvTag>, m: nat, codecs: Codecs, n: nat)
    requires MetadataAt(tags, m, codecs) && m < n <= |tags|
    ensures ListedAt(tags, codecs, MediaPositions(tags, m, n), Counted(tags, n), Contents(tags, n))
  {
    if n == m + 1 {
      NothingCounted(tags, m, codecs);
    } else {
      CountedAreMedia(tags, m, codecs, n - 1);
      CountedStep(tags, m, codecs, n);
      ListedStep(tags, codecs, MediaPositions(tags, m, n - 1), Counted(tags, n - 1), Contents(tags, n - 1), n - 1,
                 MediaPositions(tags, m, n), Counted(tags, n), Contents(tags, n));
    }
  }

  /** No bytes of media stand before the metadata. */
  ghost predicate NothingEarly(tags: seq<FlvTag>, m: nat)
    requires m < |tags| && tags[m].Metadata?
  {
    forall k :: 0 <= k < m ==> HasNoBytes(tags[k], tags[m].aac, tags[m].avc)
  }

  predicate HasNoBytes(tag: FlvTag, aac: bool, avc: bool) {
    IsMedia(tag, aac, avc) ==> |tag.data| == HeaderSize(tag, aac, avc)
  }

  lemma {:induction false} NothingEarlyWritten(tags: seq<FlvTag>, codecs: Codecs, n: nat)
    requires n <= |tags| && CodecsOf(tags) == codecs
    requires forall k :: 0 <= k < n ==> HasNoBytes(tags[k], codecs.aac, codecs.avc)
    ensures Written(tags, n) == []
  {
    if n > 0 {
      NothingEarlyWritten(tags, codecs, n - 1);
      NoBytesOf(tags[n - 1], codecs);
    }
  }

  lemma NoBytesOf(tag: FlvTag, codecs: Codecs)
    requires HasNoBytes(tag, codecs.aac, codecs.avc)
    ensures Bodies(DataOf(tag, codecs)) == []
  {
    OneListed(tag, codecs);
    if IsMedia(tag, codecs.aac, codecs.avc) {
      var data := DataOf(tag, codecs);
      assert data[..0] == [] && Bodies(data) == Bodies(data[..0]) + data[0].tag.data;
    }
  }

  /** A frame has exactly the bytes behind the codec header of a tag, and is audio, video
      or a keyframe as the tag is. */
  ghost predicate HoldsTag(f: Frame, tag: FlvTag, aac: bool, avc: bool) {
    && (tag.Audio? || tag.Video?)
    && f.data == tag.data[HeaderSize(tag, aac, avc)..]
    && f.header.size == |f.data|
    && f.header.frameType == (if tag.Audio? then AudioFrame else VideoFrame)
    && f.header.keyframe == (tag.Video? && tag.keyframe)
  }

  /** The joined file, read back: with no media bytes before the metadata, its frames
      are the media tags behind the metadata, all of them, in order. */
  lemma JoinedPlaysBack(tags: seq<FlvTag>, m: nat, frames: seq<MediaFrame>, audioHeader: MediaHeader,
                        videoHeader: MediaHeader, base: nat) returns (cut: seq<Frame>)
    requires audioHeader.timescale > 0 && videoHeader.timescale > 0
    requires FirstMetadata(tags, m) && NothingEarly(tags, m)
    requires frames == Counted(tags, |tags|) && Distinguishable(frames)
    requires HasKind(frames, true) && HasKind(frames, false) && BothFit(frames, base)
    ensures var headers := MuxedHeaders(frames, audioHeader, videoHeader, base);
      cut == Cut(Remaining(WholeBody(headers, frames, base)), Written(tags, |tags|))
    ensures var p := MediaPositions(tags, m, |tags|);
      |cut| == |p| && forall i :: 0 <= i < |p| ==> HoldsTag(cut[i], tags[p[i]], tags[m].aac, tags[m].avc)
  {
    FirstMetadataIs(tags, m);
    NothingEarlyWritten(tags, CodecsOf(tags), m);
    CountedAreMedia(tags, m, CodecsOf(tags), |tags|);
    var merged := JoinThenDemux(tags, frames, audioHeader, videoHeader, base);
    var described := MuxThenDemux(frames, audioHeader, videoHeader, base);
    cut := Cut(Remaining(WholeBody(merged, frames, base)), Written(tags, |tags|));
    AllHold(tags, CodecsOf(tags), MediaPositions(tags, m, |tags|), frames, Contents(tags, |tags|), merged, cut, base);
  }

  lemma AllHold(tags: seq<FlvTag>, codecs: Codecs, p: seq<nat>, frames: seq<MediaFrame>, contents: seq<TimedTag>,
                headers: seq<FrameHeader>, cut: seq<Frame>, base: nat)
    requires ListedAt(tags, codecs, p, frames, contents) && PlaysBack(cut, headers, contents)
    requires forall i :: 0 <= i < |frames| ==> Describes(headers[i], frames, i, base)
    ensures |cut| == |p|
    ensures forall i :: 0 <= i < |p| ==> p[i] < |tags| && HoldsTag(cut[i], tags[p[i]], codecs.aac, codecs.avc)
  {
    forall i | 0 <= i < |p| ensures p[i] < |tags| && HoldsTag(cut[i], tags[p[i]], codecs.aac, codecs.avc) {
      assert Describes(headers[i], frames, i, base);
      assert cut[i] == Frame(headers[i], contents[i].tag.data);
    }
  }
}
