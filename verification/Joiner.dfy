/** Joining FLV files into one F4V: a first pass builds the index, a second pass
    writes the frames. */
module Joiner {
  import opened Media
  import opened SampleTable
  import opened Muxer
  import opened Demuxer
  import opened FileReading
  import opened MuxerFacts
  import opened RoundTrip
  import opened Serializer

  /** The tags of an FLV file. A metadata tag carries what matters of it: whether
      it is `onMetaData`, and the codecs it announces. A video tag tells whether a
      configuration in it can be decoded. */
  datatype FlvTag =
    | Metadata(isOnMetaData: bool, aac: bool, avc: bool)
    | Audio(data: seq<Byte>)
    | Video(data: seq<Byte>, keyframe: bool, configOk: bool)
    | Ignored

  const AAC_INIT: seq<Byte> := [0xaf, 0]
  const AAC_FRAME: seq<Byte> := [0xaf, 1]
  const AVC_INIT: seq<Byte> := [0x17, 0, 0, 0, 0]
  const AVC_KEYFRAME: seq<Byte> := [0x17, 1, 0, 0, 0]
  const AVC_FRAME: seq<Byte> := [0x27, 1, 0, 0, 0]

  predicate OnMetaData(tag: FlvTag) {
    tag.Metadata? && tag.isOnMetaData
  }

  /** Position of the first `onMetaData` tag. */
  function MetaIndex(tags: seq<FlvTag>, from: nat): (m: nat)
    requires from <= |tags|
    ensures from <= m <= |tags|
    ensures m < |tags| ==> OnMetaData(tags[m])
    ensures forall k :: from <= k < m ==> !OnMetaData(tags[k])
    decreases |tags| - from
  {
    if from == |tags| || OnMetaData(tags[from]) then from else MetaIndex(tags, from + 1)
  }

  /** The codecs announced, which decide what is stripped from the frames. */
  datatype Codecs = Codecs(aac: bool, avc: bool)

  function CodecsOf(tags: seq<FlvTag>): Codecs {
    var m := MetaIndex(tags, 0);
    if m < |tags| then Codecs(tags[m].aac, tags[m].avc) else Codecs(false, false)
  }

  /** The bytes of a media tag that go into the MDAT body; none for the codec
      configuration, which goes into the MOOV. */
  function Payload(tag: FlvTag, codecs: Codecs): Option<seq<Byte>> {
    match tag
    case Audio(data) =>
      if codecs.aac && AAC_INIT <= data then None
      else if codecs.aac && AAC_FRAME <= data then Some(data[|AAC_FRAME|..])
      else Some(data)
    case Video(data, _, _) =>
      if codecs.avc && AVC_INIT <= data then None
      else if codecs.avc && (AVC_KEYFRAME <= data || AVC_FRAME <= data) then Some(data[|AVC_FRAME|..])
      else Some(data)
    case _ => None
  }

  /** The strip-and-classify step that both passes perform on a media tag. */
  method Strip(tag: FlvTag, codecs: Codecs) returns (payload: Option<seq<Byte>>)
    requires tag.Audio? || tag.Video?
    ensures payload == Payload(tag, codecs)
  {
    var data := tag.data;
    if tag.Audio? {
      if codecs.aac && |data| >= |AAC_INIT| {
        if data[..|AAC_INIT|] == AAC_INIT {
          return None;
        }
        if data[..|AAC_FRAME|] == AAC_FRAME {
          data := data[|AAC_FRAME|..];
        }
      }
    } else {
      if codecs.avc && |data| >= |AVC_INIT| {
        if data[..|AVC_INIT|] == AVC_INIT {
          return None;
        }
        if data[..|AVC_FRAME|] == AVC_KEYFRAME || data[..|AVC_FRAME|] == AVC_FRAME {
          data := data[|AVC_FRAME|..];
        }
      }
    }
    return Some(data);
  }

  function FrameOf(tag: FlvTag, codecs: Codecs): seq<MediaFrame> {
    var payload := Payload(tag, codecs);
    if payload.None? then [] else [MediaFrame(tag.Audio?, |payload.value|, 0, tag.Video? && tag.keyframe)]
  }

  function DataOf(tag: FlvTag, codecs: Codecs): seq<TimedTag> {
    var payload := Payload(tag, codecs);
    if payload.None? then [] else [TimedTag(MediaTag(tag.Audio?, tag.Video?, payload.value), 0)]
  }

  /** The frames the index lists: those behind the metadata tag. */
  function Counted(tags: seq<FlvTag>, n: nat): seq<MediaFrame>
    requires n <= |tags|
  {
    if n == 0 then []
    else Counted(tags, n - 1) + if MetaIndex(tags, 0) < n - 1 then FrameOf(tags[n - 1], CodecsOf(tags)) else []
  }

  /** The contents of the frames listed. */
  function Contents(tags: seq<FlvTag>, n: nat): seq<TimedTag>
    requires n <= |tags|
  {
    if n == 0 then []
    else Contents(tags, n - 1) + if MetaIndex(tags, 0) < n - 1 then DataOf(tags[n - 1], CodecsOf(tags)) else []
  }

  /** The bytes the second pass writes for the first n tags. */
  function Written(tags: seq<FlvTag>, n: nat): seq<Byte>
    requires n <= |tags|
  {
    if n == 0 then [] else Written(tags, n - 1) + Bodies(DataOf(tags[n - 1], CodecsOf(tags)))
  }

  /** The files as one run of tags. */
  function Flat(files: seq<seq<FlvTag>>): seq<FlvTag> {
    if files == [] then [] else Flat(files[..|files| - 1]) + files[|files| - 1]
  }

  /** A codec configuration of the announced kind has been met behind the metadata. */
  predicate EsdsSeen(tags: seq<FlvTag>, n: nat)
    requires n <= |tags|
  {
    exists k :: MetaIndex(tags, 0) < k < n && tags[k].Audio? && Payload(tags[k], CodecsOf(tags)) == None
  }

  predicate AvccSeen(tags: seq<FlvTag>, n: nat)
    requires n <= |tags|
  {
    exists k :: MetaIndex(tags, 0) < k < n &&
      tags[k].Video? && tags[k].configOk && Payload(tags[k], CodecsOf(tags)) == None
  }

  predicate Configured(tags: seq<FlvTag>) {
    && (CodecsOf(tags).aac ==> EsdsSeen(tags, |tags|))
    && (CodecsOf(tags).avc ==> AvccSeen(tags, |tags|))
  }

  /** The running state of the first pass. */
  class Indexer {
    const builder: IndexBuilder
    var hasMoov: bool
    var codecs: Codecs
    var esdsBuilt: bool
    var avccBuilt: bool
    // the tags read so far, out of all that will be
    ghost const tags: seq<FlvTag>
    ghost var position: nat

    ghost predicate Valid()
      reads this, builder
    {
      && position <= |tags|
      && builder.Valid() && builder.frames == Counted(tags, position)
      && (hasMoov <==> MetaIndex(tags, 0) < position)
      && codecs == (if hasMoov then CodecsOf(tags) else Codecs(false, false))
      && (esdsBuilt <==> EsdsSeen(tags, position))
      && (avccBuilt <==> AvccSeen(tags, position))
    }

    constructor (ghost tags: seq<FlvTag>)
      ensures Valid() && position == 0 && this.tags == tags && fresh(builder)
    {
      builder := new IndexBuilder();
      hasMoov, codecs, esdsBuilt, avccBuilt := false, Codecs(false, false), false, false;
      this.tags, position := tags, 0;
    }

    /** One tag of the first pass. Media tags met before the metadata are ignored. */
    method AddTag(tag: FlvTag)
      requires Valid() && position < |tags| && tag == tags[position]
      modifies this, builder
      ensures Valid() && position == old(position) + 1
    {
      ghost var n := position;
      SeenStep(tags, n);
      position := position + 1;
      if tag.Metadata? {
        if tag.isOnMetaData && !hasMoov {
          hasMoov := true;
          codecs := Codecs(tag.aac, tag.avc);
        }
        return;
      }
      if tag.Ignored? || !hasMoov {
        return;
      }
      var payload := Strip(tag, codecs);
      if payload == None {
        if tag.Audio? {
          esdsBuilt := true;
        } else if tag.configOk {
          avccBuilt := true;
        }
        return;
      }
      builder.AddFrame(MediaFrame(tag.Audio?, |payload.value|, 0, tag.Video? && tag.keyframe));
    }
  }

  lemma {:induction false} SeenStep(tags: seq<FlvTag>, n: nat)
    requires n < |tags|
    ensures var behind := MetaIndex(tags, 0) < n && Payload(tags[n], CodecsOf(tags)) == None;
      && (EsdsSeen(tags, n + 1) <==> EsdsSeen(tags, n) || (behind && tags[n].Audio?))
      && (AvccSeen(tags, n + 1) <==> AvccSeen(tags, n) || (behind && tags[n].Video? && tags[n].configOk))
  {
  }

  lemma {:induction false} FlatAt(files: seq<seq<FlvTag>>, i: nat, n: nat, j: nat)
    requires i < n <= |files| && j < |files[i]|
    ensures |Flat(files[..i])| + |files[i]| <= |Flat(files[..n])|
    ensures Flat(files[..n])[|Flat(files[..i])| + j] == files[i][j]
  {
    assert files[..n][..n - 1] == files[..n - 1];
    if i < n - 1 {
      FlatAt(files, i, n - 1, j);
    }
  }

  lemma FlatStep(files: seq<seq<FlvTag>>, i: nat)
    requires i < |files|
    ensures Flat(files[..i + 1]) == Flat(files[..i]) + files[i]
  {
    assert files[..i + 1][..i] == files[..i];
  }

  /** The first pass over all the files. */
  method IndexFiles(files: seq<seq<FlvTag>>) returns (indexer: Indexer)
    ensures fresh(indexer) && fresh(indexer.builder) && indexer.Valid()
    ensures indexer.tags == Flat(files) && indexer.position == |Flat(files)|
  {
    assert files[..|files|] == files;
    indexer := new Indexer(Flat(files));
    for i := 0 to |files|
      invariant fresh(indexer) && fresh(indexer.builder) && indexer.Valid()
      invariant indexer.tags == Flat(files) && indexer.position == |Flat(files[..i])|
    {
      FlatStep(files, i);
      for j := 0 to |files[i]|
        invariant fresh(indexer) && fresh(indexer.builder) && indexer.Valid()
        invariant indexer.tags == Flat(files) && indexer.position == |Flat(files[..i])| + j
      {
        FlatAt(files, i, |files|, j);
        indexer.AddTag(files[i][j]);
      }
    }
  }

  /** The second pass over all the files. */
  method WriteFrames(files: seq<seq<FlvTag>>, codecs: Codecs) returns (body: seq<Byte>)
    requires codecs == CodecsOf(Flat(files))
    ensures body == Written(Flat(files), |Flat(files)|)
  {
    assert files[..|files|] == files;
    ghost var tags := Flat(files);
    body := [];
    for i := 0 to |files|
      invariant |Flat(files[..i])| <= |tags| && body == Written(tags, |Flat(files[..i])|)
    {
      FlatStep(files, i);
      for j := 0 to |files[i]|
        invariant |Flat(files[..i])| + j <= |tags| && body == Written(tags, |Flat(files[..i])| + j)
      {
        FlatAt(files, i, |files|, j);
        body := WriteOne(files[i][j], codecs, body);
      }
      if files[i] != [] {
        FlatAt(files, i, |files|, 0);
      }
    }
  }

  method WriteOne(tag: FlvTag, codecs: Codecs, body: seq<Byte>) returns (body': seq<Byte>)
    ensures body' == body + Bodies(DataOf(tag, codecs))
  {
    body' := body;
    if tag.Audio? || tag.Video? {
      var payload := Strip(tag, codecs);
      if payload.Some? {
        assert Bodies(DataOf(tag, codecs)) == payload.value;
        body' := body + payload.value;
      }
    }
  }

  datatype Joined = Joined(audio: Track, video: Track, declaredSize: nat, body: seq<Byte>)

  /** Joins the files. `base` is where the MDAT body will start. With metadata
      present both tracks must get frames: the sample duration is a quotient by
      the frame count. */
  method JoinFilesIntoF4v(files: seq<seq<FlvTag>>, audioHeader: MediaHeader, videoHeader: MediaHeader, base: nat)
      returns (result: Option<Joined>)
    requires var tags := Flat(files); MetaIndex(tags, 0) < |tags| ==>
      HasKind(Counted(tags, |tags|), true) && HasKind(Counted(tags, |tags|), false)
    ensures var tags := Flat(files);
      && (result.None? <==> MetaIndex(tags, 0) == |tags| || !Configured(tags))
      && (result.Some? ==>
            var frames := Counted(tags, |tags|);
            && HasKind(frames, true) && HasKind(frames, false)
            && result.value == Joined(AudioTrack(frames, audioHeader, base), VideoTrack(frames, videoHeader, base),
                                      Total(frames), Written(tags, |tags|)))
  {
    var indexer := IndexFiles(files);
    if !indexer.hasMoov {
      return None;
    }
    SizesNonEmpty(indexer.builder.frames, true);
    SizesNonEmpty(indexer.builder.frames, false);
    var audio, video := indexer.builder.audio, indexer.builder.video;
    var audioStts := [Run(|audio.sizes|, audioHeader.duration / |audio.sizes|)];
    var videoStts := [Run(|video.sizes|, videoHeader.duration / |video.sizes|)];
    var audioStsc, audioStco := BuildChunkTables(audio.chunks, base);
    var videoStsc, videoStco := BuildChunkTables(video.chunks, base);
    if (indexer.codecs.aac && !indexer.esdsBuilt) || (indexer.codecs.avc && !indexer.avccBuilt) {
      return None;
    }
    var body := WriteFrames(files, indexer.codecs);
    return Some(Joined(
      Track(audio.sizes, audioStco, audioStsc, audioStts, None, None, audioHeader.timescale),
      Track(video.sizes, videoStco, videoStsc, videoStts, None, Some(video.keyframes), videoHeader.timescale),
      indexer.builder.frameOffset, body));
  }

  // ----- The two passes agree -----

  lemma {:induction false} ContentsMatch(tags: seq<FlvTag>, n: nat)
    requires n <= |tags|
    ensures AllMatch(Contents(tags, n), Counted(tags, n))
  {
    if n > 0 {
      ContentsMatch(tags, n - 1);
    }
  }

  lemma BodiesAppend(tags: seq<TimedTag>, more: seq<TimedTag>)
    requires |more| <= 1
    ensures Bodies(tags + more) == Bodies(tags) + Bodies(more)
  {
    if more == [] {
      assert tags + more == tags;
    } else {
      assert (tags + more)[..|tags|] == tags && more[..0] == [];
      assert Bodies(more) == [] + more[0].tag.data;
    }
  }

  lemma {:induction false} NoContentsYet(tags: seq<FlvTag>, n: nat)
    requires n <= |tags| && n <= MetaIndex(tags, 0) + 1
    ensures Contents(tags, n) == []
  {
    if n > 0 {
      NoContentsYet(tags, n - 1);
    }
  }

  lemma WrittenAtMetadata(tags: seq<FlvTag>)
    requires MetaIndex(tags, 0) < |tags|
    ensures Written(tags, MetaIndex(tags, 0) + 1) == Written(tags, MetaIndex(tags, 0))
  {
    assert DataOf(tags[MetaIndex(tags, 0)], CodecsOf(tags)) == [];
  }

  lemma ContentsStep(tags: seq<FlvTag>, n: nat)
    requires MetaIndex(tags, 0) + 1 < n <= |tags|
    ensures var data := DataOf(tags[n - 1], CodecsOf(tags));
      && Contents(tags, n) == Contents(tags, n - 1) + data
      && Written(tags, n) == Written(tags, n - 1) + Bodies(data)
      && Bodies(Contents(tags, n)) == Bodies(Contents(tags, n - 1)) + Bodies(data)
  {
    BodiesAppend(Contents(tags, n - 1), DataOf(tags[n - 1], CodecsOf(tags)));
  }

  ghost predicate Split(written: seq<Byte>, early: seq<Byte>, bodies: seq<Byte>) {
    written == early + bodies
  }

  lemma SplitGrows(written: seq<Byte>, early: seq<Byte>, bodies: seq<Byte>, data: seq<Byte>)
    requires Split(written, early, bodies)
    ensures Split(written + data, early, bodies + data)
  {
  }

  lemma SplitAtStart(tags: seq<FlvTag>, n: nat)
    requires MetaIndex(tags, 0) <= n <= MetaIndex(tags, 0) + 1 && n <= |tags|
    ensures Split(Written(tags, n), Written(tags, MetaIndex(tags, 0)), Bodies(Contents(tags, n)))
  {
    NoContentsYet(tags, n);
    if n > MetaIndex(tags, 0) {
      WrittenAtMetadata(tags);
    }
  }

  /** What the second pass has written is what stood before the metadata, which
      the index does not know of, and then the frames that the index lists. */
  lemma {:induction false} WrittenSplits(tags: seq<FlvTag>, n: nat)
    requires MetaIndex(tags, 0) <= n <= |tags|
    ensures Split(Written(tags, n), Written(tags, MetaIndex(tags, 0)), Bodies(Contents(tags, n)))
    decreases n
  {
    if n <= MetaIndex(tags, 0) + 1 {
      SplitAtStart(tags, n);
    } else {
      WrittenSplits(tags, n - 1);
      ContentsStep(tags, n);
      SplitGrows(Written(tags, n - 1), Written(tags, MetaIndex(tags, 0)), Bodies(Contents(tags, n - 1)),
                 Bodies(DataOf(tags[n - 1], CodecsOf(tags))));
    }
  }

  /** Frame i of the index lies where the first pass placed it, moved by the bytes
      that stood before the metadata; so the declared size is right, and every
      frame in its place, if and only if no such bytes exist. */
  lemma PassesAgreeIff(tags: seq<FlvTag>)
    ensures var frames, body := Counted(tags, |tags|), Written(tags, |tags|);
      var early := Written(tags, MetaIndex(tags, 0));
      && |body| == |early| + Total(frames)
      && (|body| == Total(frames) <==> early == [])
      && forall i :: 0 <= i < |frames| ==> FrameWritten(frames, Contents(tags, |tags|), body, |early|, i)
  {
    var n := |tags|;
    var frames, contents := Counted(tags, n), Contents(tags, n);
    ContentsMatch(tags, n);
    WrittenSplits(tags, n);
    BodiesSize(contents, frames);
    forall i | 0 <= i < |frames|
      ensures FrameWritten(frames, contents, Written(tags, n), |Written(tags, MetaIndex(tags, 0))|, i)
    {
      FrameInBody(frames, contents, Written(tags, MetaIndex(tags, 0)), i);
    }
  }

  /** One audio tag before the metadata and one behind it: the body begins with the
      bytes of the first, which the index does not know of. */
  lemma EarlyTagIsWritten()
    ensures var tags := [Audio([1]), Metadata(true, false, false), Audio([2])];
      && Written(tags, MetaIndex(tags, 0)) == [1]
      && Written(tags, |tags|) != Bodies(Contents(tags, |tags|))
  {
    var tags := [Audio([1]), Metadata(true, false, false), Audio([2])];
    assert MetaIndex(tags, 0) == MetaIndex(tags, 1) == 1;
    assert CodecsOf(tags) == Codecs(false, false);
    var first := DataOf(tags[0], CodecsOf(tags));
    assert first[..0] == [] && Bodies(first) == [] + [1];
    assert Written(tags, 1) == [] + Bodies(first) == [1];
    WrittenSplits(tags, |tags|);
  }

  ghost predicate FrameWritten(frames: seq<MediaFrame>, contents: seq<TimedTag>, body: seq<Byte>, shift: nat, i: nat)
    requires i < |frames|
  {
    var at := shift + Position(frames, i);
    |contents| == |frames| && at + frames[i].size <= |body| && body[at..at + frames[i].size] == contents[i].tag.data
  }

  lemma FrameInBody(frames: seq<MediaFrame>, contents: seq<TimedTag>, early: seq<Byte>, i: nat)
    requires AllMatch(contents, frames) && i < |frames|
    ensures FrameWritten(frames, contents, early + Bodies(contents), |early|, i)
  {
    BodyAt(contents, frames, |frames|, i);
    assert contents[..|frames|] == contents;
    var at, size, later := Position(frames, i), frames[i].size, Bodies(contents);
    assert (early + later)[|early| + at..|early| + at + size] == later[at..at + size];
  }

  /** Frame i cut out of the body has header i and content i. */
  ghost predicate PlaysBack(cut: seq<Frame>, headers: seq<FrameHeader>, contents: seq<TimedTag>) {
    |cut| == |headers| == |contents| && forall i :: 0 <= i < |cut| ==> cut[i] == Frame(headers[i], contents[i].tag.data)
  }

  lemma SerializedPlaysBack(contents: seq<TimedTag>, frames: seq<MediaFrame>, headers: seq<FrameHeader>, base: nat)
    requires AllMatch(contents, frames) && Distinguishable(frames) && |headers| == |frames|
    requires forall i :: 0 <= i < |frames| ==> Describes(headers[i], frames, i, base)
    ensures PlaysBack(Cut(Remaining(WholeBody(headers, frames, base)), Bodies(contents)), headers, contents)
  {
    SerializeThenDemux(contents, frames, headers, base);
  }

  /** A joined file plays back: when the metadata comes before all media, demuxing
      the body along the joined index yields each stripped frame, with its own
      bytes, in the order of the input files. */
  lemma JoinThenDemux(tags: seq<FlvTag>, frames: seq<MediaFrame>, audioHeader: MediaHeader,
      videoHeader: MediaHeader, base: nat) returns (merged: seq<FrameHeader>)
    requires audioHeader.timescale > 0 && videoHeader.timescale > 0
    requires Written(tags, MetaIndex(tags, 0)) == []
    requires frames == Counted(tags, |tags|) && Distinguishable(frames)
    requires HasKind(frames, true) && HasKind(frames, false) && BothFit(frames, base)
    ensures merged == MuxedHeaders(frames, audioHeader, videoHeader, base)
    ensures var remaining := Remaining(WholeBody(merged, frames, base));
      PlaysBack(Cut(remaining, Written(tags, |tags|)), merged, Contents(tags, |tags|))
  {
    merged := MuxThenDemux(frames, audioHeader, videoHeader, base);
    ContentsMatch(tags, |tags|);
    WrittenSplits(tags, |tags|);
    assert Written(tags, |tags|) == Bodies(Contents(tags, |tags|));
    SerializedPlaysBack(Contents(tags, |tags|), frames, merged, base);
  }
}
