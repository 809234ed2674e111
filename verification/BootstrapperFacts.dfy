/** A bootstrap snapshot tells a new client exactly what the bootstrapper knows. */
module BootstrapperFacts {
  import opened Media
  import opened Bootstrapper

  // ----- What every run keeps -----

  datatype Op = ProcessOp(tag: Tag) | ClearOp | ClearMediaOp | KeepMediaOp(keep: bool)

  function Apply(b: Boot, op: Op): Boot {
    match op
    case ProcessOp(tag) => Process(b, tag)
    case ClearOp => Cleared(b)
    case ClearMediaOp => b.(media := [])
    case KeepMediaOp(keep) => b.(keepMedia := keep, media := if keep then b.media else [])
  }

  function After(b: Boot, ops: seq<Op>): Boot {
    if ops == [] then b else Apply(After(b, ops[..|ops| - 1]), ops[|ops| - 1])
  }

  /** A media list is kept on demand only, and starts with its only video keyframe. */
  ghost predicate MediaSound(keepMedia: bool, media: seq<Tag>) {
    && (media != [] ==> keepMedia && IsKeyframe(media[0]))
    && (forall i :: 0 <= i < |media| ==> IsPlain(media[i]) && !IsMarker(media[i]))
    && (forall i :: 0 < i < |media| ==> !IsKeyframe(media[i]))
  }

  ghost predicate InfoSound(b: Boot) {
    && (b.mediaInfo.Some? ==> b.mediaInfo.value.MediaInfo?)
    && (b.cuePoints.Some? ==> b.cuePoints.value.CuePoints?)
    && (b.metadata.Some? ==> b.metadata.value.Flv? && b.metadata.value.flv.OnMetaData?)
  }

  ghost predicate CodecsSound(b: Boot) {
    && (b.avc.Some? ==> b.avc.value.Flv? && b.avc.value.flv.AvcHeader?)
    && (b.aac.Some? ==> b.aac.value.Flv? && b.aac.value.flv.AacHeader?)
    && (b.moov.Some? ==> b.moov.value.Flv?)
  }

  ghost predicate RegistersSound(b: Boot) {
    InfoSound(b) && CodecsSound(b)
  }

  ghost predicate Sound(b: Boot) {
    AllStarted(b.sources) && RegistersSound(b) && MediaSound(b.keepMedia, b.media)
  }

  lemma MediaKept(b: Boot, tag: Tag)
    requires MediaSound(b.keepMedia, b.media) && !IsMarker(tag)
    ensures MediaSound(Process(b, tag).keepMedia, Process(b, tag).media)
  {
  }

  lemma SourcesKept(b: Boot, tag: Tag)
    requires AllStarted(b.sources)
    ensures AllStarted(Process(b, tag).sources)
  {
  }

  lemma InfoKept(b: Boot, tag: Tag)
    requires InfoSound(b)
    ensures InfoSound(Process(b, tag))
  {
  }

  lemma CodecsKept(b: Boot, tag: Tag)
    requires CodecsSound(b)
    ensures CodecsSound(Process(b, tag))
  {
  }

  lemma ApplyKeepsSound(b: Boot, op: Op)
    requires Sound(b) && (op.ProcessOp? ==> !IsMarker(op.tag))
    ensures Sound(Apply(b, op))
  {
    if op.ProcessOp? {
      MediaKept(b, op.tag);
      SourcesKept(b, op.tag);
      InfoKept(b, op.tag);
      CodecsKept(b, op.tag);
    }
  }

  lemma {:induction false} EveryRunIsSound(keepMedia: bool, ops: seq<Op>)
    requires forall i :: 0 <= i < |ops| && ops[i].ProcessOp? ==> !IsMarker(ops[i].tag)
    ensures Sound(After(Empty(keepMedia), ops))
  {
    if ops != [] {
      EveryRunIsSound(keepMedia, ops[..|ops| - 1]);
      ApplyKeepsSound(After(Empty(keepMedia), ops[..|ops| - 1]), ops[|ops| - 1]);
    }
  }

  // ----- Feeding the snapshot to another bootstrapper -----

  function Replay(b: Boot, tags: seq<Tag>): Boot {
    if tags == [] then b else Process(Replay(b, tags[..|tags| - 1]), tags[|tags| - 1])
  }

  lemma {:induction false} ReplayConcat(b: Boot, first: seq<Tag>, rest: seq<Tag>)
    ensures Replay(b, first + rest) == Replay(Replay(b, first), rest)
  {
    if rest == [] {
      assert first + rest == first;
    } else {
      ReplayConcat(b, first, rest[..|rest| - 1]);
      assert (first + rest)[..|first + rest| - 1] == first + rest[..|rest| - 1];
    }
  }

  lemma {:induction false} ReplaySources(b: Boot, sources: seq<Tag>)
    requires AllStarted(sources)
    ensures Replay(b, sources) == b.(sources := b.sources + sources)
  {
    if sources == [] {
      assert b.sources + sources == b.sources;
    } else {
      var before := sources[..|sources| - 1];
      ReplaySources(b, before);
      assert (b.sources + before) + [sources[|sources| - 1]] == b.sources + sources;
    }
  }

  lemma ReplayKnown(b: Boot, before: seq<Tag>, register: Option<Tag>)
    ensures Replay(b, before + Known(register)) ==
      if register.None? then Replay(b, before) else Process(Replay(b, before), register.value)
  {
    if register.Some? {
      assert (before + [register.value])[..|before|] == before;
    } else {
      assert before + [] == before;
    }
  }

  /** What each register, replayed, does to a state that does not have it yet. */
  lemma ProcessKnown(b: Boot, known: Boot)
    requires RegistersSound(known)
    ensures known.mediaInfo.Some? ==> Process(b, known.mediaInfo.value) == b.(mediaInfo := known.mediaInfo)
    ensures known.metadata.Some? ==> Process(b, known.metadata.value) == b.(metadata := known.metadata)
    ensures known.cuePoints.Some? ==> Process(b, known.cuePoints.value) == b.(cuePoints := known.cuePoints)
    ensures known.avc.Some? ==> Process(b, known.avc.value) == b.(avc := known.avc)
    ensures known.aac.Some? ==> Process(b, known.aac.value) == b.(aac := known.aac)
  {
  }

  lemma ReplayInfo(b: Boot, known: Boot, before: seq<Tag>)
    requires RegistersSound(known)
    requires Replay(b, before).mediaInfo == Replay(b, before).metadata == None
    ensures Replay(b, before + Known(known.mediaInfo) + Known(known.metadata)) ==
      Replay(b, before).(mediaInfo := known.mediaInfo, metadata := known.metadata)
  {
    ReplayKnown(b, before, known.mediaInfo);
    ProcessKnown(Replay(b, before), known);
    var t1 := before + Known(known.mediaInfo);
    ReplayKnown(b, t1, known.metadata);
    ProcessKnown(Replay(b, t1), known);
  }

  lemma ReplayCues(b: Boot, known: Boot, before: seq<Tag>)
    requires RegistersSound(known)
    requires Replay(b, before).cuePoints == Replay(b, before).avc == None
    ensures Replay(b, before + Known(known.cuePoints) + Known(known.avc)) ==
      Replay(b, before).(cuePoints := known.cuePoints, avc := known.avc)
  {
    ReplayKnown(b, before, known.cuePoints);
    ProcessKnown(Replay(b, before), known);
    var t1 := before + Known(known.cuePoints);
    ReplayKnown(b, t1, known.avc);
    ProcessKnown(Replay(b, t1), known);
  }

  lemma ReplayLast(b: Boot, known: Boot, before: seq<Tag>)
    requires RegistersSound(known) && Replay(b, before).aac == None
    ensures var r := Replay(b, before).(aac := known.aac);
      Replay(b, before + Known(known.aac) + Known(known.moov)) ==
      if known.moov == None then r else Process(r, known.moov.value)
  {
    ReplayKnown(b, before, known.aac);
    ProcessKnown(Replay(b, before), known);
    ReplayKnown(b, before + Known(known.aac), known.moov);
  }

  lemma ReplayHeaders(b: Boot, known: Boot, before: seq<Tag>)
    requires RegistersSound(known)
    requires var r := Replay(b, before); r.mediaInfo == r.metadata == r.cuePoints == r.avc == r.aac == None
    ensures var r := Replay(b, before).(mediaInfo := known.mediaInfo, metadata := known.metadata,
                                        cuePoints := known.cuePoints, avc := known.avc, aac := known.aac);
      Replay(b, WithHeaders(known, before)) == if known.moov == None then r else Process(r, known.moov.value)
  {
    ReplayInfo(b, known, before);
    var t2 := before + Known(known.mediaInfo) + Known(known.metadata);
    ReplayCues(b, known, t2);
    ReplayLast(b, known, t2 + Known(known.cuePoints) + Known(known.avc));
  }

  lemma ProcessPlain(b: Boot, tag: Tag)
    requires IsPlain(tag)
    ensures Process(b, tag) == KeepMedia(b, tag)
  {
  }

  lemma MediaGrows(keepMedia: bool, media: seq<Tag>, n: nat, b: Boot)
    requires MediaSound(keepMedia, media) && n < |media| && b.keepMedia == keepMedia && b.media == media[..n]
    ensures Process(b, media[n]) == b.(media := media[..n + 1])
  {
    ProcessPlain(b, media[n]);
    assert media[..n + 1] == media[..n] + [media[n]];
  }

  lemma {:induction false} ReplayMedia(b: Boot, known: Boot, n: nat)
    requires MediaSound(known.keepMedia, known.media)
    requires b.media == [] && b.keepMedia == known.keepMedia && n <= |known.media|
    ensures Replay(b, known.media[..n]) == b.(media := known.media[..n])
  {
    if n > 0 {
      ReplayMedia(b, known, n - 1);
      assert known.media[..n][..n - 1] == known.media[..n - 1];
      MediaGrows(known.keepMedia, known.media, n - 1, b.(media := known.media[..n - 1]));
    }
  }

  /** Media tags leave the registers alone. */
  lemma {:induction false} ReplayPlain(b: Boot, tags: seq<Tag>)
    requires forall i :: 0 <= i < |tags| ==> IsPlain(tags[i])
    ensures Replay(b, tags).moov == b.moov
  {
    if tags != [] {
      ReplayPlain(b, tags[..|tags| - 1]);
    }
  }

  /** For every reachable state, a fresh bootstrapper that is fed the snapshot ends
      up in the same state if and only if no MOOV has been picked up. */
  lemma SnapshotFaithfulIff(b: Boot)
    requires Sound(b)
    ensures Replay(Empty(b.keepMedia), Snapshot(b)) == b <==> b.moov == None
  {
    var empty := Empty(b.keepMedia);
    var base := b.(moov := None, media := []);
    ReplaySources(empty, b.sources);
    assert [] + b.sources == b.sources;
    ReplayHeaders(empty, b, b.sources);
    ReplayConcat(empty, WithHeaders(b, b.sources), b.media);
    if b.moov == None {
      ReplayMedia(base, b, |b.media|);
      assert b.media[..|b.media|] == b.media;
    } else {
      MoovIsLost(base, b.moov.value.flv);
      ReplayPlain(Process(base, b.moov.value), b.media);
    }
  }

  /** Feeding the tag found inside a carrier does not give the register back. */
  lemma MoovIsLost(b: Boot, flv: FlvTag)
    requires b.moov == None
    ensures Process(b, Flv(flv)).moov != Some(Flv(flv))
  {
    if flv.MoovCarrier? {
      assert flv.inner < flv;
    }
  }

  // ----- On the way through a distributor -----

  /** What is left of a series of tags once the markers have been dropped. */
  function WithoutMarkers(tags: seq<Tag>): seq<Tag> {
    if tags == [] then []
    else WithoutMarkers(tags[..|tags| - 1]) + if IsMarker(tags[|tags| - 1]) then [] else [tags[|tags| - 1]]
  }

  ghost predicate Unmarked(tags: seq<Tag>) {
    forall t :: t in tags ==> !IsMarker(t)
  }

  lemma {:induction false} NoMarkers(tags: seq<Tag>)
    requires Unmarked(tags)
    ensures WithoutMarkers(tags) == tags
  {
    if tags != [] {
      NoMarkers(tags[..|tags| - 1]);
      assert tags == tags[..|tags| - 1] + [tags[|tags| - 1]];
    }
  }

  lemma MarkersAroundDropped(tags: seq<Tag>)
    requires Unmarked(tags)
    ensures WithoutMarkers([BootstrapBegin] + tags + [BootstrapEnd]) == tags
    decreases |tags|
  {
    var all := [BootstrapBegin] + tags;
    assert (all + [BootstrapEnd])[..|all|] == all;
    MarkerBeforeDropped(tags);
  }

  lemma {:induction false} MarkerBeforeDropped(tags: seq<Tag>)
    requires Unmarked(tags)
    ensures WithoutMarkers([BootstrapBegin] + tags) == tags
  {
    var all := [BootstrapBegin] + tags;
    if tags == [] {
      assert all[..0] == [];
    } else {
      MarkerBeforeDropped(tags[..|tags| - 1]);
      assert all[..|tags|] == [BootstrapBegin] + tags[..|tags| - 1];
      assert tags == tags[..|tags| - 1] + [tags[|tags| - 1]];
    }
  }

  lemma SnapshotHasNoMarkers(b: Boot)
    requires Sound(b)
    ensures Unmarked(Snapshot(b))
  {
    HeadersUnmarked(b, b.sources);
    UnmarkedConcat(WithHeaders(b, b.sources), b.media);
  }

  lemma UnmarkedConcat(a: seq<Tag>, b: seq<Tag>)
    requires Unmarked(a) && Unmarked(b)
    ensures Unmarked(a + b)
  {
  }

  lemma WithKnownUnmarked(tags: seq<Tag>, register: Option<Tag>)
    requires Unmarked(tags) && (register.Some? ==> !IsMarker(register.value))
    ensures Unmarked(tags + Known(register))
  {
    UnmarkedConcat(tags, Known(register));
  }

  lemma HeadersUnmarked(b: Boot, tags: seq<Tag>)
    requires RegistersSound(b) && Unmarked(tags)
    ensures Unmarked(WithHeaders(b, tags))
  {
    WithKnownUnmarked(tags, b.mediaInfo);
    var t1 := tags + Known(b.mediaInfo);
    WithKnownUnmarked(t1, b.metadata);
    var t2 := t1 + Known(b.metadata);
    WithKnownUnmarked(t2, b.cuePoints);
    var t3 := t2 + Known(b.cuePoints);
    WithKnownUnmarked(t3, b.avc);
    var t4 := t3 + Known(b.avc);
    WithKnownUnmarked(t4, b.aac);
    WithKnownUnmarked(t4 + Known(b.aac), b.moov);
  }

  /** After any run without a MOOV: what PlayAtBegin plays, passed through a
      distributor, brings a fresh bootstrapper to the very same state. */
  lemma EverySnapshotIsFaithful(keepMedia: bool, ops: seq<Op>)
    requires forall i :: 0 <= i < |ops| && ops[i].ProcessOp? ==> !IsMarker(ops[i].tag)
    ensures var b := After(Empty(keepMedia), ops);
      var played := WithoutMarkers([BootstrapBegin] + Snapshot(b) + [BootstrapEnd]);
      Replay(Empty(b.keepMedia), played) == b <==> b.moov == None
  {
    var b := After(Empty(keepMedia), ops);
    EveryRunIsSound(keepMedia, ops);
    SnapshotFaithfulIff(b);
    SnapshotHasNoMarkers(b);
    MarkersAroundDropped(Snapshot(b));
  }

  /** A client told the snapshot, and everything after it, knows at every later point what
      the bootstrapper knows. */
  lemma LateClientKeepsUp(keepMedia: bool, ops: seq<Op>, later: seq<Tag>)
    requires forall i :: 0 <= i < |ops| && ops[i].ProcessOp? ==> !IsMarker(ops[i].tag)
    requires After(Empty(keepMedia), ops).moov == None
    ensures var b := After(Empty(keepMedia), ops);
      var played := WithoutMarkers([BootstrapBegin] + Snapshot(b) + [BootstrapEnd]);
      Replay(Empty(b.keepMedia), played + later) == Replay(b, later)
  {
    var b := After(Empty(keepMedia), ops);
    EverySnapshotIsFaithful(keepMedia, ops);
    ReplayConcat(Empty(b.keepMedia), WithoutMarkers([BootstrapBegin] + Snapshot(b) + [BootstrapEnd]), later);
  }
}
