/** What comes out of an MDAT body, for every list of frame headers. */
module DemuxerFacts {
  import opened Media
  import opened SampleTable
  import opened Demuxer

  // ----- Tiling -----

  /** The headers cover [from, to) in order, without gap or overlap. */
  ghost predicate Tiles(headers: seq<FrameHeader>, from: int, to: int) {
    if headers == [] then from == to
    else headers[0].offset == from && Tiles(headers[1..], headers[0].End(), to)
  }

  /** Whatever the headers say, sorted or not, overlapping or out of range, the
      frames cover the rest of the body exactly. */
  lemma {:induction false} RemainingTiles(s: Mdat)
    requires s.Safe()
    ensures Tiles(Remaining(s), s.offset, s.end)
    decreases |s.frames| - s.next, s.end - s.offset
  {
    SafeIff(s);
    var c := Choose(s);
    if c.Read? {
      RemainingTiles(s.After(c.header, c.NextIndex()));
      assert Remaining(s)[1..] == Remaining(s.After(c.header, c.NextIndex()));
    } else {
      FinishedAtEnd(s);
    }
  }

  lemma {:induction false} FinishedAtEnd(s: Mdat)
    requires s.InBounds() && Choose(s).Finished?
    ensures s.offset == s.end
    decreases |s.frames| - s.next
  {
    if s.next < |s.frames| {
      FinishedAtEnd(s.(next := s.next + 1));
    }
  }

  lemma {:induction false} RawPiecesTile(begin: int, end: int, offset: int)
    requires begin <= offset <= end
    ensures Tiles(RawPieces(begin, end, offset), offset - begin, end - begin)
    ensures forall i :: 0 <= i < |RawPieces(begin, end, offset)| ==>
      var pieces := RawPieces(begin, end, offset);
      && 0 < pieces[i].size <= 10000 && (i < |pieces| - 1 ==> pieces[i].size == 10000)
      && IsFiller(pieces[i], None)
    decreases end - offset
  {
    if offset < end {
      var size := if end - offset < RAW_SPLIT_SIZE then end - offset else RAW_SPLIT_SIZE;
      RawPiecesTile(begin, end, offset + size);
      assert RawPieces(begin, end, offset)[1..] == RawPieces(begin, end, offset + size);
    }
  }

  // ----- Bounded output -----

  lemma {:induction false} ChooseStopsAt(s: Mdat)
    requires s.InBounds() && Choose(s).Read? && !Choose(s).advance
    ensures var c := Choose(s);
      c.next < |s.frames| ==> s.begin <= s.frames[c.next].offset == c.header.End() < s.end
    ensures Choose(s).next == |s.frames| ==> Choose(s).header.End() == s.end
    decreases |s.frames| - s.next
  {
    if s.next < |s.frames| {
      var h := s.frames[s.next];
      if h.offset < s.begin || h.offset >= s.end || h.offset < s.offset {
        ChooseStopsAt(s.(next := s.next + 1));
      }
    }
  }

  /** n headers yield at most 2n+1 frames: each one is preceded by at most one
      filler, and one more filler can close the body. */
  lemma {:induction false} RemainingBounded(s: Mdat)
    requires s.InBounds()
    ensures |Remaining(s)| <= 2 * (|s.frames| - s.next) + if s.offset == s.end then 0 else 1
    ensures s.next < |s.frames| && s.InRange(s.next) && s.frames[s.next].offset == s.offset ==>
      |Remaining(s)| <= 2 * (|s.frames| - s.next)
    decreases |s.frames| - s.next, s.end - s.offset
  {
    var c := Choose(s);
    if c.Read? {
      var s' := s.After(c.header, c.NextIndex());
      RemainingBounded(s');
      if !c.advance {
        ChooseStopsAt(s);
      }
    }
  }

  // ----- Which headers come out as frames -----

  function MediaOnly(headers: seq<FrameHeader>): seq<FrameHeader> {
    if headers == [] then []
    else (if headers[0].frameType == RawFrame then [] else [headers[0]]) + MediaOnly(headers[1..])
  }

  /** First come, first served: a header is kept when it starts inside the body
      and not before the end of the one kept last, and ends inside the body. */
  function Greedy(headers: seq<FrameHeader>, begin: int, end: int, pos: int): seq<FrameHeader> {
    if headers == [] then []
    else
      var h, rest := headers[0], headers[1..];
      if h.offset < begin || h.offset >= end || h.offset < pos then Greedy(rest, begin, end, pos)
      else if h.End() > end then Greedy(rest, begin, end, end)
      else [h] + Greedy(rest, begin, end, h.End())
  }

  ghost predicate NoRaw(headers: seq<FrameHeader>) {
    forall i :: 0 <= i < |headers| ==> headers[i].frameType != RawFrame
  }

  /** One decision of the reader, against one step of the greedy choice. */
  ghost predicate GreedyStep(s: Mdat, c: Choice)
    requires s.InBounds() && (c.Read? ==> c.NextIndex() <= |s.frames| && (c.advance ==> c.next < |s.frames|))
  {
    var kept := Greedy(s.frames[s.next..], s.begin, s.end, s.offset);
    match c
    case Finished => kept == []
    case CheckFails => false
    case Read(header, next, advance) =>
      var later := Greedy(s.frames[c.NextIndex()..], s.begin, s.end, s.offset + header.size);
      && (header.frameType == RawFrame || advance)
      && kept == if header.frameType == RawFrame then later else [header] + later
  }

  lemma ChooseGreedyHere(s: Mdat)
    requires s.InBounds() && NoRaw(s.frames)
    requires s.next == |s.frames| || (s.InRange(s.next) && s.offset <= s.frames[s.next].offset)
    ensures GreedyStep(s, Choose(s))
  {
    if s.next < |s.frames| {
      var rest := s.frames[s.next..];
      assert rest[0] == s.frames[s.next] && rest[1..] == s.frames[s.next + 1..];
    }
  }

  lemma {:induction false} ChooseGreedy(s: Mdat)
    requires s.InBounds() && NoRaw(s.frames) && !Choose(s).CheckFails?
    ensures GreedyStep(s, Choose(s))
    decreases |s.frames| - s.next
  {
    if s.next == |s.frames| || (s.InRange(s.next) && s.offset <= s.frames[s.next].offset) {
      ChooseGreedyHere(s);
    } else {
      var rest := s.frames[s.next..];
      assert rest[0] == s.frames[s.next] && rest[1..] == s.frames[s.next + 1..];
      ChooseGreedy(s.(next := s.next + 1));
    }
  }

  /** Dropping the fillers leaves exactly the greedily kept headers. */
  lemma {:induction false} RemainingIsGreedy(s: Mdat)
    requires s.Safe() && NoRaw(s.frames)
    ensures MediaOnly(Remaining(s)) == Greedy(s.frames[s.next..], s.begin, s.end, s.offset)
    decreases |s.frames| - s.next, s.end - s.offset
  {
    SafeIff(s);
    ChooseGreedy(s);
    var c := Choose(s);
    if c.Read? {
      var s' := s.After(c.header, c.NextIndex());
      RemainingIsGreedy(s');
      assert Remaining(s)[1..] == Remaining(s');
    }
  }

  /** Sorted, disjoint headers inside the body: what a correct index looks like. */
  ghost predicate Laid(frames: seq<FrameHeader>, begin: int, end: int) {
    && NoRaw(frames)
    && (forall k :: 0 <= k < |frames| ==> begin <= frames[k].offset < end && frames[k].End() <= end)
    && (forall k :: 0 <= k < |frames| - 1 ==> frames[k].End() <= frames[k + 1].offset)
  }

  lemma {:induction false} GreedyKeepsAll(frames: seq<FrameHeader>, begin: int, end: int, pos: int)
    requires Laid(frames, begin, end) && (frames != [] ==> pos <= frames[0].offset)
    ensures Greedy(frames, begin, end, pos) == frames
  {
    if frames != [] {
      var rest := frames[1..];
      assert forall k :: 0 <= k < |rest| ==> rest[k] == frames[k + 1];
      GreedyKeepsAll(rest, begin, end, frames[0].End());
    }
  }

  /** The greedy choice keeps everything only of a list that is laid out properly. */
  lemma {:induction false} GreedyCounts(headers: seq<FrameHeader>, begin: int, end: int, pos: int)
    requires NoRaw(headers)
    ensures var kept := Greedy(headers, begin, end, pos);
      && |kept| <= |headers|
      && (|kept| == |headers| ==> Laid(headers, begin, end) && (headers != [] ==> pos <= headers[0].offset))
  {
    if headers != [] {
      var h, rest := headers[0], headers[1..];
      assert forall k :: 0 <= k < |rest| ==> rest[k] == headers[k + 1];
      GreedyCounts(rest, begin, end, pos);
      GreedyCounts(rest, begin, end, end);
      GreedyCounts(rest, begin, end, h.End());
    }
  }

  ghost predicate AllOfType(s: seq<FrameHeader>, frameType: FrameType) {
    forall i :: 0 <= i < |s| ==> s[i].frameType == frameType
  }

  lemma HeadersOfType(t: Track, audio: bool)
    ensures AllOfType(Headers(t, audio), if audio then AudioFrame else VideoFrame)
  {
  }

  lemma {:induction false} MergeNotRaw(audio: seq<FrameHeader>, video: seq<FrameHeader>)
    requires NoRaw(audio) && NoRaw(video)
    ensures NoRaw(Merge(audio, video)) && |Merge(audio, video)| == |audio| + |video|
    decreases |audio| + |video|
  {
    if audio == [] && video == [] {
    } else if video == [] || (audio != [] && audio[0].offset < video[0].offset) {
      MergeNotRaw(audio[1..], video);
    } else {
      MergeNotRaw(audio, video[1..]);
    }
  }

  lemma {:induction false} ContiguousRead(s: Mdat)
    requires s.InBounds() && Laid(s.frames, s.begin, s.end) && Tiles(s.frames[s.next..], s.offset, s.end)
    ensures Remaining(s) == s.frames[s.next..]
    decreases |s.frames| - s.next
  {
    if s.next < |s.frames| {
      var h := s.frames[s.next];
      assert s.frames[s.next..][1..] == s.frames[s.next + 1..];
      assert Choose(s) == Read(h, s.next, true);
      ContiguousRead(s.After(h, s.next + 1));
    }
  }

  /** The start of a body that is read from its first header on. */
  predicate AtStart(s: Mdat) {
    s.begin <= s.end && s.offset == s.begin && s.next == 0 && s.prev == None
  }

  lemma StartIsSafe(s: Mdat)
    requires AtStart(s)
    ensures s.Safe()
  {
    var k := s.FirstInRange(0);
  }

  /** A correct index is read back in full, in order; when its frames cover the
      body without gaps, nothing else comes out. */
  lemma LaidFramesAllRead(s: Mdat)
    requires AtStart(s) && Laid(s.frames, s.begin, s.end)
    ensures MediaOnly(Remaining(s)) == s.frames
    ensures Tiles(s.frames, s.begin, s.end) ==> Remaining(s) == s.frames
  {
    StartIsSafe(s);
    RemainingIsGreedy(s);
    assert s.frames[0..] == s.frames;
    GreedyKeepsAll(s.frames, s.begin, s.end, s.begin);
    if Tiles(s.frames, s.begin, s.end) {
      ContiguousRead(s);
    }
  }

  // ----- What the headers read say -----

  /** A filler carries the time of the frame read before it. */
  predicate IsFiller(h: FrameHeader, before: Option<FrameHeader>) {
    && h.frameType == RawFrame && !h.keyframe
    && h.decodingTimestamp == (if before.Some? then before.value.decodingTimestamp else 0)
    && h.compositionOffsetMs == h.duration == h.sampleIndex == 0
  }

  /** A frame cut off at the end of the body becomes raw and keeps its times. */
  predicate IsCutOff(h: FrameHeader, whole: FrameHeader, end: int) {
    && h.frameType == RawFrame && !h.keyframe && h.offset == whole.offset && h.End() == end < whole.End()
    && h.decodingTimestamp == whole.decodingTimestamp && h.compositionOffsetMs == whole.compositionOffsetMs
    && h.duration == whole.duration && h.sampleIndex == whole.sampleIndex
  }

  ghost predicate ReadFrom(h: FrameHeader, frames: seq<FrameHeader>, before: Option<FrameHeader>, end: int) {
    h in frames || IsFiller(h, before) || exists k :: 0 <= k < |frames| && IsCutOff(h, frames[k], end)
  }

  lemma {:induction false} ChoiceIsReadFrom(s: Mdat)
    requires s.InBounds() && Choose(s).Read?
    ensures ReadFrom(Choose(s).header, s.frames, s.prev, s.end)
    decreases |s.frames| - s.next
  {
    if s.next < |s.frames| {
      var h := s.frames[s.next];
      if h.offset < s.begin || h.offset >= s.end || h.offset < s.offset {
        ChoiceIsReadFrom(s.(next := s.next + 1));
      } else if s.offset == h.offset && h.End() > s.end {
        assert IsCutOff(Choose(s).header, s.frames[s.next], s.end);
      }
    }
  }

  /** Every header read is one of the index, or a filler with the time of the one before
      it, or one of the index cut off at the end of the body. */
  lemma {:induction false} HeadersRead(s: Mdat, i: nat)
    requires s.InBounds() && i < |Remaining(s)|
    ensures ReadFrom(Remaining(s)[i], s.frames, if i == 0 then s.prev else Some(Remaining(s)[i - 1]), s.end)
    decreases |s.frames| - s.next, s.end - s.offset
  {
    var c := Choose(s);
    var s' := s.After(c.header, c.NextIndex());
    assert Remaining(s) == [c.header] + Remaining(s');
    if i == 0 {
      ChoiceIsReadFrom(s);
    } else {
      HeadersRead(s', i - 1);
    }
  }

  lemma {:induction false} NothingAtEnd(s: Mdat)
    requires s.InBounds() && s.offset == s.end && s.prev.Some?
    ensures Remaining(s) == [] && Choose(s).Finished?
    decreases |s.frames| - s.next
  {
    if s.next < |s.frames| {
      NothingAtEnd(s.(next := s.next + 1));
    }
  }

  /** A header that is due and does not fit is read cut off, and ends the body. */
  lemma CutOffEndsBody(s: Mdat)
    requires s.InBounds() && s.next < |s.frames| && s.InRange(s.next)
    requires s.offset == s.frames[s.next].offset && s.frames[s.next].End() > s.end
    ensures |Remaining(s)| == 1 && IsCutOff(Remaining(s)[0], s.frames[s.next], s.end)
  {
    var cut := s.Truncated(s.frames[s.next]);
    NothingAtEnd(s.After(cut, s.next + 1));
  }

  // ----- Seeking -----

  /** The position after seeking to frame j. */
  function Sought(s: Mdat, j: nat): Mdat
    requires j < |s.frames|
  {
    s.(offset := s.frames[j].offset, next := j, prev := None)
  }

  /** Exactly when reading can go on after a seek: the frame starts inside the
      body, or right at its end with no usable header behind it. */
  lemma SeekSafeIff(s: Mdat, j: nat)
    requires s.begin <= s.end && j < |s.frames|
    ensures Sought(s, j).Safe() <==>
      || s.InRange(j)
      || (s.frames[j].offset == s.end && forall k :: j < k < |s.frames| ==> !s.InRange(k))
  {
    var t := Sought(s, j);
    var k := t.FirstInRange(j);
    assert forall i :: 0 <= i < |s.frames| ==> t.InRange(i) == s.InRange(i);
    if s.frames[j].offset == s.end && k < |s.frames| {
      assert k > j && s.InRange(k);
    }
  }

  /** A frame behind the end of a body of one byte: seeking to it succeeds, and the
      next read trips the check. */
  lemma SeekBehindEnd(h: FrameHeader)
    requires h.offset == 2
    ensures var s := Mdat(0, 1, 0, [h], 0, None); s.Safe() && !Sought(s, 0).Safe()
  {
    SeekSafeIff(Mdat(0, 1, 0, [h], 0, None), 0);
  }

  ghost predicate IsTail<T>(tail: seq<T>, all: seq<T>) {
    tail == all || (all != [] && IsTail(tail, all[1..]))
  }

  lemma TailOfCons<T>(tail: seq<T>, head: T, rest: seq<T>, all: seq<T>)
    requires IsTail(tail, rest) && all == [head] + rest
    ensures IsTail(tail, all)
  {
    assert all[1..] == rest;
  }

  /** s gives head and goes on as s', not beyond frame j. */
  ghost predicate StepsTo(s: Mdat, j: nat, head: FrameHeader, s': Mdat) {
    && s.InBounds() && s'.InBounds() && Remaining(s) == [head] + Remaining(s')
    && s'.begin == s.begin && s'.end == s.end && s'.frames == s.frames
    && s'.next <= j < |s.frames| && s'.offset <= s.frames[s'.next].offset
    && (s'.next > s.next || (s'.next == s.next && s'.offset > s.offset))
  }

  lemma StepOverGap(s: Mdat, j: nat) returns (head: FrameHeader, s': Mdat)
    requires s.InBounds() && Laid(s.frames, s.begin, s.end)
    requires s.next <= j < |s.frames| && s.offset < s.frames[s.next].offset
    ensures StepsTo(s, j, head, s')
  {
    GapHere(s);
    head := s.Filler(s.frames[s.next].offset);
    s' := s.After(head, s.next);
  }

  lemma StepOverFrame(s: Mdat, j: nat) returns (head: FrameHeader, s': Mdat)
    requires s.InBounds() && Laid(s.frames, s.begin, s.end)
    requires s.next < j < |s.frames| && s.offset == s.frames[s.next].offset
    ensures StepsTo(s, j, head, s')
  {
    ReadHere(s);
    head, s' := s.frames[s.next], s.After(s.frames[s.next], s.next + 1);
  }

  /** At frame j itself it no longer matters where the run came from. */
  lemma ArrivedIsSought(s: Mdat, j: nat)
    requires s.InBounds() && s.next == j < |s.frames| && s.InRange(j)
    requires s.frames[j].offset == s.offset && s.frames[j].End() <= s.end
    ensures Sought(s, j).InBounds() && Remaining(s) == Remaining(Sought(s, j))
  {
    ReadHere(s);
    ReadHere(Sought(s, j));
  }

  lemma {:induction false} SeekReachesTail(s: Mdat, t: Mdat)
    requires s.InBounds() && t.InBounds() && Laid(s.frames, s.begin, s.end)
    requires t.next < |s.frames| && t == Sought(s, t.next)
    requires s.next <= t.next && s.offset <= s.frames[s.next].offset
    ensures IsTail(Remaining(t), Remaining(s))
    decreases |s.frames| - s.next, s.end - s.offset
  {
    if s.next == t.next && s.offset == s.frames[s.next].offset {
      ArrivedIsSought(s, t.next);
    } else {
      var head, s';
      if s.offset < s.frames[s.next].offset {
        head, s' := StepOverGap(s, t.next);
      } else {
        head, s' := StepOverFrame(s, t.next);
      }
      SeekReachesTail(s', t);
      TailOfCons(Remaining(t), head, Remaining(s'), Remaining(s));
    }
  }

  /** With a correct index, seeking commutes with reading: what comes out after a
      seek to frame j is the tail, starting with frame j, of what would have come
      out without it. */
  lemma SeekCommutesWithReading(s: Mdat, j: nat)
    requires s.InBounds() && Laid(s.frames, s.begin, s.end)
    requires s.next <= j < |s.frames| && s.offset <= s.frames[s.next].offset
    ensures Sought(s, j).InBounds()
    ensures Remaining(Sought(s, j)) != [] && Remaining(Sought(s, j))[0] == s.frames[j]
    ensures IsTail(Remaining(Sought(s, j)), Remaining(s))
  {
    ReadHere(Sought(s, j));
    SeekReachesTail(s, Sought(s, j));
  }

  lemma GapHere(s: Mdat)
    requires s.InBounds() && s.next < |s.frames| && s.InRange(s.next) && s.offset < s.frames[s.next].offset
    ensures var filler := s.Filler(s.frames[s.next].offset);
      Remaining(s) == [filler] + Remaining(s.After(filler, s.next))
  {
  }

  /** A frame that starts at the position and fits is read next. */
  lemma ReadHere(s: Mdat)
    requires s.InBounds() && s.next < |s.frames| && s.InRange(s.next)
    requires s.frames[s.next].offset == s.offset && s.frames[s.next].End() <= s.end
    ensures var h := s.frames[s.next];
      Remaining(s) == [h] + Remaining(Mdat(s.begin, s.end, s.offset + h.size, s.frames, s.next + 1, Some(h)))
  {
  }

  // ----- Cue points and seeking by time -----

  ghost predicate TimeOrdered(frames: seq<FrameHeader>) {
    forall i, j :: 0 <= i <= j < |frames| ==> 0 <= frames[i].decodingTimestamp <= frames[j].decodingTimestamp
  }

  lemma {:induction false} LeadingFrames(frames: seq<FrameHeader>, time: int)
    ensures var n := UpToTime(frames, time);
      && (forall i :: 0 <= i < n ==> frames[i].decodingTimestamp <= time)
      && (n < |frames| ==> time < frames[n].decodingTimestamp)
  {
    if frames != [] && frames[0].decodingTimestamp <= time {
      LeadingFrames(frames[1..], time);
      assert forall i :: 1 <= i < |frames| ==> frames[i] == frames[1..][i - 1];
    }
  }

  /** The frame sought for a time, whatever the order of the times: the one before the
      first frame that is later, the last one if none is, the first if that is later. */
  lemma FrameSought(frames: seq<FrameHeader>, time: int)
    requires frames != []
    ensures var f := FrameAtTime(frames, time);
      if time < frames[0].decodingTimestamp then f == 0
      else
        && (forall i :: 0 <= i <= f ==> frames[i].decodingTimestamp <= time)
        && (f < |frames| - 1 ==> time < frames[f + 1].decodingTimestamp)
  {
    LeadingFrames(frames, time);
  }

  lemma {:induction false} UpToTimeSplits(frames: seq<FrameHeader>, time: int)
    requires TimeOrdered(frames)
    ensures var n := UpToTime(frames, time);
      && (forall i :: 0 <= i < n ==> frames[i].decodingTimestamp <= time)
      && (forall i :: n <= i < |frames| ==> time < frames[i].decodingTimestamp)
  {
    if frames != [] && frames[0].decodingTimestamp <= time {
      var rest := frames[1..];
      assert forall i :: 0 <= i < |rest| ==> rest[i] == frames[i + 1];
      UpToTimeSplits(rest, time);
      var n := UpToTime(rest, time);
      assert forall i :: 0 <= i < n + 1 ==> i == 0 || frames[i] == rest[i - 1];
      assert forall i :: n + 1 <= i < |frames| ==> frames[i] == rest[i - 1];
    }
  }

  lemma {:induction false} SeekTargetIsLastKeyframe(frames: seq<FrameHeader>, f: nat)
    requires f < |frames|
    ensures var g := SeekTarget(frames, f, true);
      && (forall i :: g < i <= f ==> !frames[i].keyframe)
      && (frames[g].keyframe || g == 0)
  {
    if f > 0 && !frames[f].keyframe {
      SeekTargetIsLastKeyframe(frames, f - 1);
    }
  }

  /** Positions of the keyframes. */
  function Keyframes(frames: seq<FrameHeader>): (r: seq<nat>)
    ensures forall i :: 0 <= i < |r| ==> r[i] < |frames| && frames[r[i]].keyframe
  {
    if frames == [] then []
    else
      var n := |frames| - 1;
      Keyframes(frames[..n]) + if frames[n].keyframe then [n] else []
  }

  /** One cue a keyframe, in order, and no keyframe left out. */
  ghost predicate CuesMatch(frames: seq<FrameHeader>, r: seq<nat>, cues: seq<CuePoint>) {
    && |cues| == |r| && (forall i :: 0 <= i < |r| ==> r[i] < |frames|)
    && (forall i :: 0 <= i < |r| ==> cues[i] == CuePoint(frames[r[i]].decodingTimestamp, frames[r[i]].offset))
    && (forall i, j :: 0 <= i < j < |r| ==> r[i] < r[j])
    && (forall f :: 0 <= f < |frames| && frames[f].keyframe ==> f in r)
  }

  lemma CuesMatchOneMore(frames: seq<FrameHeader>, r: seq<nat>, cues: seq<CuePoint>)
    requires frames != [] && CuesMatch(frames[..|frames| - 1], r, cues)
    ensures var n := |frames| - 1; var f := frames[n];
      if f.keyframe then CuesMatch(frames, r + [n], cues + [CuePoint(f.decodingTimestamp, f.offset)])
      else CuesMatch(frames, r, cues)
  {
    var n := |frames| - 1;
    forall f | 0 <= f < n && frames[f].keyframe ensures f in r {
      assert frames[..n][f].keyframe;
    }
  }

  lemma {:induction false} CuePointsAreKeyframes(frames: seq<FrameHeader>)
    ensures CuesMatch(frames, Keyframes(frames), CuePoints(frames))
  {
    if frames != [] {
      var before := frames[..|frames| - 1];
      CuePointsAreKeyframes(before);
      CuesMatchOneMore(frames, Keyframes(before), CuePoints(before));
      if !frames[|frames| - 1].keyframe {
        assert Keyframes(before) + [] == Keyframes(before) && CuePoints(before) + [] == CuePoints(before);
      }
    }
  }

  /** What the binary search may answer for a time. */
  ghost predicate CueAnswer(cues: seq<CuePoint>, time: int, cue: int) {
    && 0 <= cue < |cues|
    && (time < 0 ==> cue == 0)
    && (time >= 0 ==> (forall i :: cue < i < |cues| ==> time < cues[i].time) && (cue > 0 ==> cues[cue].time <= time))
  }

  /** With a keyframe in time, both ways lead to the last one. */
  lemma CueInTime(frames: seq<FrameHeader>, time: int, cue: int)
    requires TimeOrdered(frames) && CueAnswer(CuePoints(frames), time, cue)
    requires CuePoints(frames)[cue].time <= time
    ensures frames != [] && |Keyframes(frames)| == |CuePoints(frames)|
    ensures SeekTarget(frames, FrameAtTime(frames, time), true) == Keyframes(frames)[cue]
  {
    var r, cues := Keyframes(frames), CuePoints(frames);
    CuePointsAreKeyframes(frames);
    UpToTimeSplits(frames, time);
    var f := FrameAtTime(frames, time);
    SeekTargetIsLastKeyframe(frames, f);
    var target := SeekTarget(frames, f, true);
    assert time >= 0;
    assert r[cue] <= f && r[cue] <= target && frames[target].keyframe;
    LastCueInTime(frames, time, cue, target);
  }

  /** The last keyframe in time is the cue's. */
  lemma {:induction false} LastCueInTime(frames: seq<FrameHeader>, time: int, cue: int, target: nat)
    requires CuesMatch(frames, Keyframes(frames), CuePoints(frames))
    requires CueAnswer(CuePoints(frames), time, cue) && time >= 0
    requires target < |frames| && frames[target].keyframe && frames[target].decodingTimestamp <= time
    requires Keyframes(frames)[cue] <= target
    ensures target == Keyframes(frames)[cue]
  {
    var r := Keyframes(frames);
    var i :| 0 <= i < |r| && r[i] == target;
    assert CuePoints(frames)[i].time <= time;
    assert i <= cue;
  }

  /** With none, the cue table answers its first entry and the seek the first frame. */
  lemma {:induction false} NoCueInTime(frames: seq<FrameHeader>, time: int, cue: int)
    requires TimeOrdered(frames) && CueAnswer(CuePoints(frames), time, cue)
    requires time < CuePoints(frames)[cue].time
    ensures frames != [] && cue == 0
    ensures forall f :: 0 <= f < |frames| && frames[f].keyframe ==> time < frames[f].decodingTimestamp
    ensures SeekTarget(frames, FrameAtTime(frames, time), true) == 0
  {
    var r, cues := Keyframes(frames), CuePoints(frames);
    CuePointsAreKeyframes(frames);
    forall g | 0 <= g < |frames| && frames[g].keyframe ensures time < frames[g].decodingTimestamp {
      var i :| 0 <= i < |r| && r[i] == g;
      assert frames[r[0]].decodingTimestamp <= frames[r[i]].decodingTimestamp;
    }
    UpToTimeSplits(frames, time);
    SeekTargetIsLastKeyframe(frames, FrameAtTime(frames, time));
  }

  /** Looking a time up in the cue table and seeking to it on keyframes give the
      same file offset if and only if some keyframe is not later than the time,
      or the first keyframe happens to sit where the first frame does. */
  lemma {:induction false} CueAgreesWithSeekIff(frames: seq<FrameHeader>, time: int, cue: int)
    requires TimeOrdered(frames) && CueAnswer(CuePoints(frames), time, cue)
    ensures frames != []
    ensures var target := SeekTarget(frames, FrameAtTime(frames, time), true); var cues := CuePoints(frames);
      frames[target].offset == cues[cue].fileOffset <==>
        || (exists f :: 0 <= f < |frames| && frames[f].keyframe && frames[f].decodingTimestamp <= time)
        || frames[0].offset == cues[0].fileOffset
  {
    var r, cues := Keyframes(frames), CuePoints(frames);
    CuePointsAreKeyframes(frames);
    if cues[cue].time <= time {
      CueInTime(frames, time, cue);
      assert frames[r[cue]].keyframe && frames[r[cue]].decodingTimestamp <= time;
    } else {
      NoCueInTime(frames, time, cue);
    }
  }

  lemma CueTimesSorted(frames: seq<FrameHeader>)
    requires TimeOrdered(frames)
    ensures SortedByTime(CuePoints(frames))
  {
    CuePointsAreKeyframes(frames);
  }

  /** Looks a time up in the cue table of a file. The cue found and the seek on
      keyframes name the same offset exactly when some keyframe is in time, or the
      first keyframe sits where the first frame does. */
  method CueForTime(frames: seq<FrameHeader>, time: int) returns (cue: int)
    requires TimeOrdered(frames)
    ensures cue == -1 <==> forall f :: 0 <= f < |frames| ==> !frames[f].keyframe
    ensures cue != -1 ==> frames != [] && CueAnswer(CuePoints(frames), time, cue)
    ensures cue != -1 ==>
      (frames[SeekTarget(frames, FrameAtTime(frames, time), true)].offset == CuePoints(frames)[cue].fileOffset <==>
        || (exists f :: 0 <= f < |frames| && frames[f].keyframe && frames[f].decodingTimestamp <= time)
        || frames[0].offset == CuePoints(frames)[0].fileOffset)
  {
    CuePointsAreKeyframes(frames);
    CueTimesSorted(frames);
    cue := GetCueForTime(CuePoints(frames), time);
    if cue != -1 {
      CueAgreesWithSeekIff(frames, time, cue);
    }
  }
}
