/** Remembering what a late client must be told: the open sources, the headers, and
    the media since the last keyframe. */
module Bootstrapper {
  import opened Media

  datatype FlvTag =
    | AvcHeader(content: int)
    | AacHeader(content: int)
    | OnMetaData(content: int)
    | MoovCarrier(inner: FlvTag)
    | OtherFlv(isVideo: bool, canResync: bool, content: int)

  /** A flavour mask selects exactly one flavour, so masks overlap when equal. */
  datatype Tag =
    | SourceStarted(name: string, flavour: nat)
    | SourceEnded(name: string, flavour: nat)
    | MediaInfo(content: int)
    | CuePoints(content: int)
    | Flv(flv: FlvTag)
    | BootstrapBegin
    | BootstrapEnd
    | Eos
    | Other(isVideo: bool, canResync: bool, content: int)

  predicate IsKeyframe(tag: Tag) {
    match tag
    case Flv(OtherFlv(isVideo, canResync, _)) => isVideo && canResync
    case Other(isVideo, canResync, _) => isVideo && canResync
    case _ => false
  }

  predicate IsMarker(tag: Tag) {
    tag.BootstrapBegin? || tag.BootstrapEnd?
  }

  /** Neither a bracket of a source nor kept in a register. */
  predicate IsPlain(tag: Tag) {
    (tag.Flv? && tag.flv.OtherFlv?) || tag.Other? || tag.Eos? || IsMarker(tag)
  }

  datatype Boot = Boot(
    keepMedia: bool,
    sources: seq<Tag>,
    mediaInfo: Option<Tag>,
    metadata: Option<Tag>,
    cuePoints: Option<Tag>,
    avc: Option<Tag>,
    aac: Option<Tag>,
    moov: Option<Tag>,
    media: seq<Tag>)

  function Empty(keepMedia: bool): Boot {
    Boot(keepMedia, [], None, None, None, None, None, None, [])
  }

  /** A source ends: all that is known was of that source. */
  function PopSource(b: Boot): Boot {
    Empty(b.keepMedia).(sources := if b.sources == [] then [] else b.sources[..|b.sources| - 1])
  }

  function KeepMedia(b: Boot, tag: Tag): Boot {
    if !b.keepMedia || (b.media == [] && !IsKeyframe(tag)) then b
    else if IsKeyframe(tag) then b.(media := [tag])
    else b.(media := b.media + [tag])
  }

  function ProcessFlv(b: Boot, tag: Tag): Boot
    requires tag.Flv?
  {
    match tag.flv
    case AvcHeader(_) => b.(avc := Some(tag))
    case MoovCarrier(inner) => b.(moov := Some(Flv(inner)))
    case OnMetaData(_) => b.(metadata := Some(tag))
    case AacHeader(_) => b.(aac := Some(tag))
    case OtherFlv(_, _, _) => KeepMedia(b, tag)
  }

  function Process(b: Boot, tag: Tag): Boot {
    match tag
    case SourceEnded(_, _) => PopSource(b)
    case MediaInfo(_) => b.(mediaInfo := Some(tag))
    case SourceStarted(_, _) => b.(sources := b.sources + [tag])
    case CuePoints(_) => b.(cuePoints := Some(tag))
    case Flv(_) => ProcessFlv(b, tag)
    case _ => KeepMedia(b, tag)
  }

  /** Clearing forgets the sources and the headers; the media list stays. */
  function Cleared(b: Boot): Boot {
    Empty(b.keepMedia).(media := b.media)
  }

  function Known(register: Option<Tag>): seq<Tag> {
    if register.None? then [] else [register.value]
  }

  /** The headers known, sent after some other tags. */
  function WithHeaders(b: Boot, tags: seq<Tag>): seq<Tag> {
    tags + Known(b.mediaInfo) + Known(b.metadata) + Known(b.cuePoints) + Known(b.avc) + Known(b.aac) + Known(b.moov)
  }

  /** What a new client is told. */
  function Snapshot(b: Boot): seq<Tag> {
    WithHeaders(b, b.sources) + b.media
  }

  lemma SnapshotBehind(b: Boot, before: seq<Tag>)
    ensures WithHeaders(b, before + b.sources) + b.media == before + Snapshot(b)
  {
    Known6(before, b.sources, Known(b.mediaInfo), Known(b.metadata), Known(b.cuePoints), Known(b.avc), Known(b.aac),
        Known(b.moov));
  }

  lemma Known6<T>(t: seq<T>, s: seq<T>, a: seq<T>, b: seq<T>, c: seq<T>, d: seq<T>, e: seq<T>, f: seq<T>)
    ensures (t + s) + a + b + c + d + e + f == t + (s + a + b + c + d + e + f)
  {
    assert (t + s) + a + b + c == t + (s + a + b + c);
    var x := s + a + b + c;
    assert (t + x) + d + e + f == t + (x + d + e + f);
  }

  function Ended(started: Tag): Tag
    requires started.SourceStarted?
  {
    SourceEnded(started.name, started.flavour)
  }

  ghost predicate AllStarted(sources: seq<Tag>) {
    forall i :: 0 <= i < |sources| ==> sources[i].SourceStarted?
  }

  /** Closing the open sources of one flavour, innermost first. */
  function Closing(sources: seq<Tag>, flavour: nat): seq<Tag>
    requires AllStarted(sources)
  {
    if sources == [] then []
    else
      var last := sources[|sources| - 1];
      (if last.flavour == flavour then [Ended(last)] else []) + Closing(sources[..|sources| - 1], flavour)
  }

  class Bootstrapper {
    var keepMedia: bool
    var sourceStartedTags: seq<Tag>
    var avcSequenceHeader: Option<Tag>
    var aacHeader: Option<Tag>
    var metadata: Option<Tag>
    var mediaInfo: Option<Tag>
    var cuePoints: Option<Tag>
    var moov: Option<Tag>
    var mediaBootstrap: seq<Tag>

    ghost function State(): Boot
      reads this
    {
      Boot(keepMedia, sourceStartedTags, mediaInfo, metadata, cuePoints, avcSequenceHeader, aacHeader, moov,
          mediaBootstrap)
    }

    constructor (keepMedia: bool)
      ensures State() == Empty(keepMedia)
    {
      this.keepMedia, sourceStartedTags, mediaBootstrap := keepMedia, [], [];
      avcSequenceHeader, aacHeader, metadata, mediaInfo, cuePoints, moov := None, None, None, None, None, None;
    }

    method ProcessTag(tag: Tag)
      modifies this
      ensures State() == Process(old(State()), tag)
    {
      if tag.SourceEnded? {
        if sourceStartedTags != [] {
          sourceStartedTags := sourceStartedTags[..|sourceStartedTags| - 1];
        }
        mediaBootstrap := [];
        avcSequenceHeader, aacHeader, metadata, mediaInfo, cuePoints, moov := None, None, None, None, None, None;
        return;
      }
      if tag.MediaInfo? {
        mediaInfo := Some(tag);
        return;
      }
      if tag.SourceStarted? {
        sourceStartedTags := sourceStartedTags + [tag];
        return;
      }
      if tag.Flv? {
        if tag.flv.AvcHeader? {
          avcSequenceHeader := Some(tag);
          return;
        }
        if tag.flv.MoovCarrier? {
          moov := Some(Flv(tag.flv.inner));
          return;
        }
        if tag.flv.OnMetaData? {
          metadata := Some(tag);
          return;
        }
        if tag.flv.AacHeader? {
          aacHeader := Some(tag);
          return;
        }
      }
      if tag.CuePoints? {
        cuePoints := Some(tag);
        return;
      }
      if keepMedia {
        var keyframe := IsKeyframe(tag);
        if keyframe {
          mediaBootstrap := [];
        }
        if mediaBootstrap == [] && !keyframe {
          return;
        }
        mediaBootstrap := mediaBootstrap + [tag];
      }
    }

    method MaybeSendTag(tags: seq<Tag>, register: Option<Tag>) returns (tags': seq<Tag>)
      ensures tags' == tags + Known(register)
    {
      tags' := tags;
      if register.Some? {
        tags' := tags' + [register.value];
      }
    }

    /** The tags that the callback of a new client is run with. */
    method PlayAtBegin() returns (tags: seq<Tag>)
      ensures tags == [BootstrapBegin] + Snapshot(State()) + [BootstrapEnd]
      ensures tags == [BootstrapBegin] + sourceStartedTags + Known(mediaInfo) + Known(metadata) + Known(cuePoints)
                      + Known(avcSequenceHeader) + Known(aacHeader) + Known(moov) + mediaBootstrap + [BootstrapEnd]
    {
      SnapshotBehind(State(), [BootstrapBegin]);
      ghost var headers := WithHeaders(State(), [BootstrapBegin] + sourceStartedTags);
      tags := [BootstrapBegin];
      for i := 0 to |sourceStartedTags|
        invariant tags == [BootstrapBegin] + sourceStartedTags[..i]
      {
        tags := tags + [sourceStartedTags[i]];
      }
      tags := MaybeSendTag(tags, mediaInfo);
      tags := MaybeSendTag(tags, metadata);
      tags := MaybeSendTag(tags, cuePoints);
      tags := MaybeSendTag(tags, avcSequenceHeader);
      tags := MaybeSendTag(tags, aacHeader);
      tags := MaybeSendTag(tags, moov);
      assert tags == headers;
      for i := 0 to |mediaBootstrap|
        invariant tags == headers + mediaBootstrap[..i]
      {
        tags := tags + [mediaBootstrap[i]];
      }
      assert mediaBootstrap[..|mediaBootstrap|] == mediaBootstrap;
      tags := tags + [BootstrapEnd];
    }

    method PlayAtEnd(flavour: nat) returns (tags: seq<Tag>)
      requires AllStarted(sourceStartedTags)
      ensures tags == Closing(sourceStartedTags, flavour)
    {
      tags := [];
      var i := |sourceStartedTags|;
      assert sourceStartedTags[..i] == sourceStartedTags;
      while i > 0
        invariant 0 <= i <= |sourceStartedTags|
        invariant tags + Closing(sourceStartedTags[..i], flavour) == Closing(sourceStartedTags, flavour)
      {
        assert sourceStartedTags[..i][..i - 1] == sourceStartedTags[..i - 1];
        i := i - 1;
        if sourceStartedTags[i].flavour == flavour {
          tags := tags + [Ended(sourceStartedTags[i])];
        }
      }
    }

    /** The sources and headers, without the media list. */
    method GetBootstrapTags() returns (tags: seq<Tag>)
      ensures tags == sourceStartedTags + Known(metadata) + Known(mediaInfo) + Known(cuePoints)
                      + Known(avcSequenceHeader) + Known(aacHeader) + Known(moov)
    {
      tags := sourceStartedTags;
      tags := MaybeSendTag(tags, metadata);
      tags := MaybeSendTag(tags, mediaInfo);
      tags := MaybeSendTag(tags, cuePoints);
      tags := MaybeSendTag(tags, avcSequenceHeader);
      tags := MaybeSendTag(tags, aacHeader);
      tags := MaybeSendTag(tags, moov);
    }

    method ClearBootstrap()
      modifies this
      ensures State() == Cleared(old(State()))
    {
      sourceStartedTags := [];
      avcSequenceHeader, aacHeader, metadata, mediaInfo, cuePoints, moov := None, None, None, None, None, None;
    }

    method ClearMediaBootstrap()
      modifies this
      ensures State() == old(State()).(media := [])
    {
      mediaBootstrap := [];
    }

    method SetKeepMedia(keep: bool)
      modifies this
      ensures State() == old(State()).(keepMedia := keep, media := if keep then old(mediaBootstrap) else [])
    {
      keepMedia := keep;
      if !keep {
        ClearMediaBootstrap();
      }
    }
  }
}
