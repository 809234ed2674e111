/** The reorder buffer and the demuxer: what they agree on, and what comes of it. */
module ReorderFacts {
  import opened Media
  import opened SampleTable
  import opened Demuxer
  import opened DemuxerFacts
  import opened Reorder

  // ----- Agreement with the demuxer's order -----

  ghost predicate SortedByOffset(headers: seq<FrameHeader>) {
    forall i, j :: 0 <= i < j < |headers| ==> headers[i].offset <= headers[j].offset
  }

  lemma MultisetOfHead(s: seq<FrameHeader>)
    requires s != []
    ensures multiset(s) == multiset{s[0]} + multiset(s[1..])
  {
    assert s == [s[0]] + s[1..];
  }

  lemma MultisetSum(h: FrameHeader, a: multiset<FrameHeader>, b: multiset<FrameHeader>)
    ensures multiset{h} + (a + b) == (multiset{h} + a) + b == a + (multiset{h} + b)
  {
  }

  /** Merging loses and invents nothing. */
  lemma {:induction false} MergeIsUnion(audio: seq<FrameHeader>, video: seq<FrameHeader>)
    ensures multiset(Merge(audio, video)) == multiset(audio) + multiset(video)
    decreases |audio| + |video|
  {
    if audio == [] && video == [] {
    } else if video == [] || (audio != [] && audio[0].offset < video[0].offset) {
      var rest := Merge(audio[1..], video);
      MergeIsUnion(audio[1..], video);
      MultisetOfHead(audio);
      assert Merge(audio, video) == [audio[0]] + rest;
      MultisetSum(audio[0], multiset(audio[1..]), multiset(video));
    } else {
      var rest := Merge(audio, video[1..]);
      MergeIsUnion(audio, video[1..]);
      MultisetOfHead(video);
      assert Merge(audio, video) == [video[0]] + rest;
      MultisetSum(video[0], multiset(audio), multiset(video[1..]));
    }
  }

  lemma HeadBelow(low: int, merged: seq<FrameHeader>, a: seq<FrameHeader>, b: seq<FrameHeader>)
    requires multiset(merged) == multiset(a) + multiset(b)
    requires (forall x :: x in a ==> low <= x.offset) && (forall x :: x in b ==> low <= x.offset)
    ensures forall i :: 0 <= i < |merged| ==> low <= merged[i].offset
  {
    forall i | 0 <= i < |merged| ensures low <= merged[i].offset {
      assert merged[i] in multiset(merged);
    }
  }

  lemma SortedParts(s: seq<FrameHeader>)
    requires SortedByOffset(s) && s != []
    ensures SortedByOffset(s[1..]) && forall x :: x in s ==> s[0].offset <= x.offset
  {
  }

  /** Merging two tracks that are in file order keeps file order. */
  lemma {:induction false} MergeIsSorted(audio: seq<FrameHeader>, video: seq<FrameHeader>)
    requires SortedByOffset(audio) && SortedByOffset(video)
    ensures SortedByOffset(Merge(audio, video))
    decreases |audio| + |video|
  {
    if audio != [] {
      SortedParts(audio);
    }
    if video != [] {
      SortedParts(video);
    }
    if audio == [] && video == [] {
    } else if video == [] || (audio != [] && audio[0].offset < video[0].offset) {
      MergeIsSorted(audio[1..], video);
      MergeIsUnion(audio[1..], video);
      HeadBelow(audio[0].offset, Merge(audio[1..], video), audio[1..], video);
      assert Merge(audio, video) == [audio[0]] + Merge(audio[1..], video);
    } else {
      MergeIsSorted(audio, video[1..]);
      MergeIsUnion(audio, video[1..]);
      HeadBelow(video[0].offset, Merge(audio, video[1..]), audio, video[1..]);
      assert Merge(audio, video) == [video[0]] + Merge(audio, video[1..]);
    }
  }

  /** The head, when it belongs to a group. */
  function HeadIn(h: FrameHeader, key: int, byTimestamp: bool): seq<FrameHeader> {
    if Key(h, byTimestamp) == key then [h] else []
  }

  lemma HeadOfGroup(s: seq<FrameHeader>, key: int, byTimestamp: bool)
    requires s != []
    ensures WithKey(s, key, byTimestamp) ==
      HeadIn(s[0], key, byTimestamp) + WithKey(s[1..], key, byTimestamp)
  {
  }

  lemma {:induction false} WithKeyConcat(s: seq<FrameHeader>, t: seq<FrameHeader>, key: int, byTimestamp: bool)
    ensures WithKey(s + t, key, byTimestamp) == WithKey(s, key, byTimestamp) + WithKey(t, key, byTimestamp)
  {
    if s == [] {
      assert s + t == t;
    } else {
      WithKeyConcat(s[1..], t, key, byTimestamp);
      assert (s + t)[1..] == s[1..] + t;
      HeadOfGroup(s, key, byTimestamp);
      HeadOfGroup(s + t, key, byTimestamp);
      Reassociate(HeadIn(s[0], key, byTimestamp), WithKey(s[1..], key, byTimestamp), WithKey(t, key, byTimestamp));
    }
  }

  lemma {:induction false} WithKeyMeans(s: seq<FrameHeader>, key: int, byTimestamp: bool)
    ensures forall x :: x in WithKey(s, key, byTimestamp) <==> x in s && Key(x, byTimestamp) == key
    ensures WithKey(s, key, byTimestamp) == [] <==> forall i :: 0 <= i < |s| ==> Key(s[i], byTimestamp) != key
  {
    if s != [] {
      WithKeyMeans(s[1..], key, byTimestamp);
      assert s == [s[0]] + s[1..];
    }
  }

  lemma GroupOfCons(h: FrameHeader, rest: seq<FrameHeader>, key: int)
    ensures WithKey([h] + rest, key, false) == HeadIn(h, key, false) + WithKey(rest, key, false)
  {
    assert ([h] + rest)[1..] == rest;
  }

  lemma NoneBehind(low: int, s: seq<FrameHeader>, key: int)
    requires key <= low && (s != [] ==> low < s[0].offset) && SortedByOffset(s)
    ensures WithKey(s, key, false) == []
  {
    WithKeyMeans(s, key, false);
  }

  lemma {:induction false} AudioTaken(audio: seq<FrameHeader>, video: seq<FrameHeader>, rest: seq<FrameHeader>,
      key: int)
    requires audio != [] && (video != [] ==> audio[0].offset < video[0].offset) && SortedByOffset(video)
    requires WithKey(rest, key, false) == WithKey(video, key, false) + WithKey(audio[1..], key, false)
    ensures WithKey([audio[0]] + rest, key, false) == WithKey(video, key, false) + WithKey(audio, key, false)
  {
    GroupOfCons(audio[0], rest, key);
    if audio[0].offset == key {
      NoneBehind(key, video, key);
    }
  }

  lemma VideoTaken(audio: seq<FrameHeader>, video: seq<FrameHeader>, rest: seq<FrameHeader>, key: int)
    requires video != []
    requires WithKey(rest, key, false) == WithKey(video[1..], key, false) + WithKey(audio, key, false)
    ensures WithKey([video[0]] + rest, key, false) == WithKey(video, key, false) + WithKey(audio, key, false)
  {
    GroupOfCons(video[0], rest, key);
    Reassociate(HeadIn(video[0], key, false), WithKey(video[1..], key, false), WithKey(audio, key, false));
  }

  /** Frames of one offset come out of the merge video first. */
  lemma {:induction false} WithKeyOfMerge(audio: seq<FrameHeader>, video: seq<FrameHeader>, key: int)
    requires SortedByOffset(audio) && SortedByOffset(video)
    ensures WithKey(Merge(audio, video), key, false) == WithKey(video, key, false) + WithKey(audio, key, false)
    decreases |audio| + |video|
  {
    if audio == [] && video == [] {
    } else if video == [] || (audio != [] && audio[0].offset < video[0].offset) {
      SortedParts(audio);
      WithKeyOfMerge(audio[1..], video, key);
      AudioTaken(audio, video, Merge(audio[1..], video), key);
    } else {
      SortedParts(video);
      WithKeyOfMerge(audio, video[1..], key);
      VideoTaken(audio, video, Merge(audio, video[1..]), key);
    }
  }

  lemma SmallestKey(s: seq<FrameHeader>, t: seq<FrameHeader>, byTimestamp: bool)
    requires s != [] && SortedBy(t, byTimestamp)
    requires WithKey(s, Key(s[0], byTimestamp), byTimestamp) == WithKey(t, Key(s[0], byTimestamp), byTimestamp)
    ensures t != [] && Key(t[0], byTimestamp) <= Key(s[0], byTimestamp)
  {
    WithKeyMeans(t, Key(s[0], byTimestamp), byTimestamp);
  }

  ghost predicate SameGroups(s: seq<FrameHeader>, t: seq<FrameHeader>, byTimestamp: bool) {
    forall key :: WithKey(s, key, byTimestamp) == WithKey(t, key, byTimestamp)
  }

  /** Two sorted lists that agree on the frames of every key are the same. */
  lemma {:induction false} GroupsDetermine(s: seq<FrameHeader>, t: seq<FrameHeader>, byTimestamp: bool)
    requires SortedBy(s, byTimestamp) && SortedBy(t, byTimestamp) && SameGroups(s, t, byTimestamp)
    ensures s == t
  {
    if s != [] {
      SmallestKey(s, t, byTimestamp);
      SmallestKey(t, s, byTimestamp);
      var key := Key(s[0], byTimestamp);
      assert WithKey(s, key, byTimestamp)[0] == s[0] && WithKey(t, key, byTimestamp)[0] == t[0];
      forall k ensures WithKey(s[1..], k, byTimestamp) == WithKey(t[1..], k, byTimestamp) {
        HeadOfGroup(s, k, byTimestamp);
        HeadOfGroup(t, k, byTimestamp);
        assert WithKey(s[1..], k, byTimestamp) ==
          if k == key then WithKey(s, k, byTimestamp)[1..] else WithKey(s, k, byTimestamp);
      }
      GroupsDetermine(s[1..], t[1..], byTimestamp);
      assert s == [s[0]] + s[1..] && t == [t[0]] + t[1..];
    } else if t != [] {
      SmallestKey(t, s, byTimestamp);
    }
  }

  ghost predicate ShareOffset(audio: seq<FrameHeader>, video: seq<FrameHeader>) {
    exists i, j :: 0 <= i < |audio| && 0 <= j < |video| && audio[i].offset == video[j].offset
  }

  lemma GroupsOfBoth(audio: seq<FrameHeader>, video: seq<FrameHeader>, key: int)
    requires SortedByOffset(audio) && SortedByOffset(video)
    ensures WithKey(StableSort(audio + video, false), key, false) ==
      WithKey(audio, key, false) + WithKey(video, key, false)
    ensures WithKey(Merge(audio, video), key, false) == WithKey(video, key, false) + WithKey(audio, key, false)
  {
    StableSortFacts(audio + video, false);
    WithKeyConcat(audio, video, key, false);
    WithKeyOfMerge(audio, video, key);
  }

  /** An offset of both kinds tells the two orders apart. */
  lemma SharedOffsetDiffers(audio: seq<FrameHeader>, video: seq<FrameHeader>, i: nat, j: nat)
    requires SortedByOffset(audio) && SortedByOffset(video)
    requires AllOfType(audio, AudioFrame) && AllOfType(video, VideoFrame)
    requires i < |audio| && j < |video| && audio[i].offset == video[j].offset
    ensures StableSort(audio + video, false) != Merge(audio, video)
  {
    var key := audio[i].offset;
    var a, v := WithKey(audio, key, false), WithKey(video, key, false);
    GroupsOfBoth(audio, video, key);
    WithKeyMeans(audio, key, false);
    WithKeyMeans(video, key, false);
    assert Key(audio[i], false) == key && Key(video[j], false) == key;
    assert a[0] in a && v[0] in v;
    assert (a + v)[0] == a[0] && (v + a)[0] == v[0];
  }

  /** The reorder buffer and the demuxer expect the frames of two tracks in the same
      order if and only if no audio frame shares its offset with a video frame. */
  lemma {:induction false} OrdersAgreeIff(audio: seq<FrameHeader>, video: seq<FrameHeader>)
    requires SortedByOffset(audio) && SortedByOffset(video)
    requires AllOfType(audio, AudioFrame) && AllOfType(video, VideoFrame)
    ensures StableSort(audio + video, false) == Merge(audio, video) <==> !ShareOffset(audio, video)
  {
    var sorted, merged := StableSort(audio + video, false), Merge(audio, video);
    if ShareOffset(audio, video) {
      var i, j :| 0 <= i < |audio| && 0 <= j < |video| && audio[i].offset == video[j].offset;
      SharedOffsetDiffers(audio, video, i, j);
    } else {
      StableSortFacts(audio + video, false);
      MergeIsSorted(audio, video);
      forall key ensures WithKey(sorted, key, false) == WithKey(merged, key, false) {
        GroupsOfBoth(audio, video, key);
        WithKeyMeans(audio, key, false);
        WithKeyMeans(video, key, false);
      }
      GroupsDetermine(sorted, merged, false);
    }
  }

  /** At equal offsets the two orders differ: the demuxer takes video first, the
      stable sort keeps audio first. */
  lemma EqualOffsetsDiffer(a: FrameHeader, v: FrameHeader)
    requires a.offset == v.offset && a != v
    ensures Merge([a], [v]) == [v, a] && StableSort([a] + [v], false) == [a, v]
  {
    assert Merge([a], [v]) == [v] + Merge([a], []);
    assert Merge([a], []) == [a] + Merge([], []);
    var s := [a] + [v];
    assert s[1..] == [v] && [v][1..] == [];
    assert StableSort([], false) == [];
    assert StableSort([v], false) == InsertSorted(v, [], false) == [v];
  }

  // ----- What the demuxer reads, put through the buffer -----

  ghost predicate DistinctOffsets(s: seq<FrameHeader>) {
    forall i, j :: 0 <= i < j < |s| ==> s[i].offset != s[j].offset
  }

  /** No expected frame that cannot be served stands before one that can. */
  ghost predicate NoGap(s: seq<FrameHeader>, ready: set<int>) {
    forall i, j :: 0 <= i < j < |s| && Due(s, ready, j) ==> Due(s, ready, i)
  }

  lemma {:induction false} FirstWithOffset(s: seq<FrameHeader>, ready: set<int>, j: nat) returns (first: nat)
    requires j < |s| && s[j].offset in ready
    ensures first <= j && s[first].offset == s[j].offset && Due(s, ready, first)
  {
    if i :| 0 <= i < j && s[i].offset == s[j].offset {
      first := FirstWithOffset(s, ready, i);
    } else {
      first := j;
    }
  }

  /** Nothing that was pushed is held back if and only if no missing frame is
      expected before one that came. */
  lemma NothingHeldBackIff(s: seq<FrameHeader>, ready: set<int>)
    requires ready <= Offsets(s)
    ensures ready <= Offsets(s[..ReadyPrefix(s, ready)]) <==> NoGap(s, ready)
  {
    var n := ReadyPrefix(s, ready);
    if NoGap(s, ready) {
      forall o | o in ready ensures o in Offsets(s[..n]) {
        var j :| 0 <= j < |s| && s[j].offset == o;
        var first := FirstWithOffset(s, ready, j);
        assert s[..n][first].offset == o;
      }
    }
    if ready <= Offsets(s[..n]) {
      forall i, j | 0 <= i < j < |s| && Due(s, ready, j) ensures Due(s, ready, i) {
        var m :| 0 <= m < n && s[..n][m].offset == s[j].offset;
      }
    }
  }

  /** All expected frames can be served if and only if they have offsets of their
      own and all of those are there. */
  lemma AllServedIff(s: seq<FrameHeader>, ready: set<int>)
    ensures ReadyPrefix(s, ready) == |s| <==> DistinctOffsets(s) && Offsets(s) <= ready
  {
    if DistinctOffsets(s) && Offsets(s) <= ready {
      forall k | 0 <= k < |s| ensures Due(s, ready, k) {
        assert s[k].offset in Offsets(s);
      }
    }
    if ReadyPrefix(s, ready) == |s| {
      forall i, j | 0 <= i < j < |s| ensures s[i].offset != s[j].offset {
        assert Due(s, ready, j);
      }
      forall o | o in Offsets(s) ensures o in ready {
        var k :| 0 <= k < |s| && s[k].offset == o;
        assert Due(s, ready, k);
      }
    }
  }

  lemma {:induction false} CountOffsets(s: seq<FrameHeader>)
    ensures |Offsets(s)| <= |s|
    ensures |Offsets(s)| == |s| <==> DistinctOffsets(s)
  {
    if s != [] {
      var rest := s[1..];
      CountOffsets(rest);
      OffsetsOfHead(s);
      if s[0].offset in Offsets(rest) {
        assert Offsets(s) == Offsets(rest);
        var j :| 0 <= j < |rest| && rest[j].offset == s[0].offset;
        assert s[j + 1].offset == s[0].offset;
      } else {
        DistinctOffsetsOfHead(s);
      }
    }
  }

  lemma OffsetsOfHead(s: seq<FrameHeader>)
    requires s != []
    ensures Offsets(s) == {s[0].offset} + Offsets(s[1..])
  {
    forall o | o in Offsets(s) ensures o in {s[0].offset} + Offsets(s[1..]) {
      var i :| 0 <= i < |s| && s[i].offset == o;
      assert i > 0 ==> s[1..][i - 1].offset == o;
    }
    forall o | o in Offsets(s[1..]) ensures o in Offsets(s) {
      var i :| 0 <= i < |s[1..]| && s[1..][i].offset == o;
      assert s[i + 1].offset == o;
    }
  }

  lemma DistinctOffsetsOfHead(s: seq<FrameHeader>)
    requires s != [] && s[0].offset !in Offsets(s[1..])
    ensures DistinctOffsets(s) <==> DistinctOffsets(s[1..])
  {
    var rest := s[1..];
    if DistinctOffsets(rest) {
      forall i, j | 0 <= i < j < |s| ensures s[i].offset != s[j].offset {
        assert s[j] == rest[j - 1] && rest[j - 1].offset in Offsets(rest);
        assert i > 0 ==> s[i] == rest[i - 1];
      }
    }
    if DistinctOffsets(s) {
      assert forall k :: 0 <= k < |rest| ==> rest[k] == s[k + 1];
    }
  }

  lemma SameOffsets(s: seq<FrameHeader>, t: seq<FrameHeader>)
    requires multiset(s) == multiset(t)
    ensures |s| == |t| && Offsets(s) == Offsets(t)
  {
    assert |s| == |multiset(s)| == |multiset(t)| == |t|;
    assert forall i :: 0 <= i < |s| ==> s[i] in multiset(t);
    assert forall i :: 0 <= i < |t| ==> t[i] in multiset(s);
  }

  ghost predicate PositiveSizes(headers: seq<FrameHeader>) {
    forall k :: 0 <= k < |headers| ==> headers[k].size > 0
  }

  /** With frames of positive size no offset is read twice. */
  lemma {:induction false} ReadOnce(headers: seq<FrameHeader>, begin: int, end: int, pos: int)
    requires PositiveSizes(headers)
    ensures var kept := Greedy(headers, begin, end, pos);
      DistinctOffsets(kept) && forall k :: 0 <= k < |kept| ==> pos <= kept[k].offset
  {
    if headers != [] {
      var h, rest := headers[0], headers[1..];
      ReadOnce(rest, begin, end, pos);
      ReadOnce(rest, begin, end, end);
      ReadOnce(rest, begin, end, h.End());
    }
  }

  lemma SubsetCount(a: set<int>, b: set<int>)
    requires a <= b
    ensures |a| <= |b|
  {
    assert b == a + (b - a);
  }

  /** When no offset is read twice: every expected frame is among those read, on an
      offset of its own, if and only if the list that the demuxer reads along is laid
      out properly: in file order, without overlap, each frame inside the body. */
  lemma AllFramesServedIff(s: Mdat, expected: seq<FrameHeader>)
    requires AtStart(s) && NoRaw(s.frames) && multiset(expected) == multiset(s.frames)
    requires DistinctOffsets(MediaOnly(Remaining(s)))
    ensures ReadyPrefix(expected, Offsets(MediaOnly(Remaining(s)))) == |expected| <==>
      Laid(s.frames, s.begin, s.end)
  {
    var kept := Greedy(s.frames, s.begin, s.end, s.begin);
    StartIsSafe(s);
    RemainingIsGreedy(s);
    assert s.frames[0..] == s.frames;
    AllServedIff(expected, Offsets(kept));
    SameOffsets(expected, s.frames);
    CountOffsets(expected);
    CountOffsets(s.frames);
    if Laid(s.frames, s.begin, s.end) {
      GreedyKeepsAll(s.frames, s.begin, s.end, s.begin);
    } else if DistinctOffsets(expected) && Offsets(expected) <= Offsets(kept) {
      SubsetCount(Offsets(expected), Offsets(kept));
      CountOffsets(kept);
      GreedyCounts(s.frames, s.begin, s.end, s.begin);
    }
  }

  lemma {:induction false} ReadAreExpected(headers: seq<FrameHeader>, begin: int, end: int, pos: int)
    ensures Offsets(Greedy(headers, begin, end, pos)) <= Offsets(headers)
  {
    if headers != [] {
      var h, rest := headers[0], headers[1..];
      OffsetsOfHead(headers);
      ReadAreExpected(rest, begin, end, pos);
      ReadAreExpected(rest, begin, end, end);
      ReadAreExpected(rest, begin, end, h.End());
      var later := Greedy(rest, begin, end, h.End());
      OffsetsOfHead([h] + later);
      assert ([h] + later)[1..] == later;
    }
  }

  lemma ExpectedAreMerged(audio: Track, video: Track, byTimestamp: bool)
    ensures var expected := StableSort(Headers(audio, true) + Headers(video, false), byTimestamp);
      multiset(expected) == multiset(Merge(Headers(audio, true), Headers(video, false)))
  {
    StableSortFacts(Headers(audio, true) + Headers(video, false), byTimestamp);
    MergeIsUnion(Headers(audio, true), Headers(video, false));
  }

  lemma MergedIsNotRaw(audio: Track, video: Track)
    ensures NoRaw(Merge(Headers(audio, true), Headers(video, false)))
  {
    HeadersOfType(audio, true);
    HeadersOfType(video, false);
    MergeNotRaw(Headers(audio, true), Headers(video, false));
  }

  /** What comes of the frames read: whether all that is expected can be served, and
      whether what is read is served. */
  lemma FramesReadServe(s: Mdat, expected: seq<FrameHeader>)
    requires AtStart(s) && NoRaw(s.frames) && multiset(expected) == multiset(s.frames)
    requires DistinctOffsets(MediaOnly(Remaining(s)))
    ensures var ready := Offsets(MediaOnly(Remaining(s)));
      && (ReadyPrefix(expected, ready) == |expected| <==> Laid(s.frames, s.begin, s.end))
      && (ready <= Offsets(expected[..ReadyPrefix(expected, ready)]) <==> NoGap(expected, ready))
  {
    var ready := Offsets(MediaOnly(Remaining(s)));
    AllFramesServedIff(s, expected);
    StartIsSafe(s);
    RemainingIsGreedy(s);
    assert s.frames[0..] == s.frames;
    ReadAreExpected(s.frames, s.begin, s.end, s.begin);
    SameOffsets(expected, s.frames);
    NothingHeldBackIff(expected, ready);
  }

  lemma NoneLeftIff<V>(m: map<int, V>, taken: set<int>)
    ensures m - taken == map[] <==> m.Keys <= taken
  {
    if m - taken == map[] {
      forall o | o in m.Keys ensures o in taken {
        assert o !in taken ==> o in m - taken;
      }
    }
    if m.Keys <= taken {
      assert (m - taken).Keys == {};
    }
  }

  lemma NoneCachedIff(r: TagReorder)
    requires r.Valid() && r.pushedOnce
    ensures |r.emitted| == ReadyPrefix(r.orderedFrames, r.pushed.Keys)
    ensures r.cache == map[] <==> r.pushed.Keys <= Offsets(r.orderedFrames[..|r.emitted|])
  {
    r.EmitsLongestReadyPrefix();
    NoneLeftIff(r.pushed, Offsets(r.orderedFrames[..|r.emitted|]));
  }

  /** The demuxer's frames, each pushed once into the buffer of the same MOOV: all
      that is expected comes out if and only if the merged list is laid out
      properly, and nothing is held back if and only if no frame that the demuxer
      skipped or cut short is expected before one that it read. */
  lemma DemuxedThroughBuffer(r: TagReorder, s: Mdat, audio: Track, video: Track)
    requires AtStart(s) && s.frames == Merge(Headers(audio, true), Headers(video, false))
    requires DistinctOffsets(MediaOnly(Remaining(s)))
    requires r.Valid() && r.pushedOnce && r.pushed.Keys == Offsets(MediaOnly(Remaining(s)))
    requires r.orderedFrames == StableSort(Headers(audio, true) + Headers(video, false), r.orderByTimestamp)
    ensures |r.emitted| == |r.orderedFrames| <==> Laid(s.frames, s.begin, s.end)
    ensures r.cache == map[] <==> NoGap(r.orderedFrames, r.pushed.Keys)
  {
    ExpectedAreMerged(audio, video, r.orderByTimestamp);
    MergedIsNotRaw(audio, video);
    FramesReadServe(s, r.orderedFrames);
    NoneCachedIff(r);
  }

  /** Three frames of one byte, the first audio frame and the first video frame at one
      place: the demuxer reads the two video frames, and the buffer holds back the
      second of them, waiting for the frame that was skipped. */
  lemma SharedOffsetHoldsBack(a: FrameHeader, v: FrameHeader, w: FrameHeader)
    requires a.frameType == AudioFrame && v.frameType == w.frameType == VideoFrame
    requires a.offset == v.offset == 0 && w.offset == 1 && a.size == v.size == w.size == 1
    ensures var s := Mdat(0, 2, 0, Merge([a], [v, w]), 0, None);
      && AtStart(s) && MediaOnly(Remaining(s)) == [v, w]
      && !NoGap(StableSort([a] + [v, w], false), Offsets([v, w]))
  {
    MergeOfThree(a, v, w);
    ReadOfThree(a, v, w);
    var expected, ready := [a, v, w], Offsets([v, w]);
    assert [v, w][0].offset in ready && [v, w][1].offset in ready;
    assert !Due(expected, ready, 1) by {
      assert expected[0].offset == expected[1].offset;
    }
    assert Due(expected, ready, 2);
  }

  lemma ReadOfThree(a: FrameHeader, v: FrameHeader, w: FrameHeader)
    requires a.frameType == AudioFrame && v.frameType == w.frameType == VideoFrame
    requires a.offset == v.offset == 0 && w.offset == 1 && a.size == v.size == w.size == 1
    ensures MediaOnly(Remaining(Mdat(0, 2, 0, [v, a, w], 0, None))) == [v, w]
  {
    var s := Mdat(0, 2, 0, [v, a, w], 0, None);
    StartIsSafe(s);
    RemainingIsGreedy(s);
    assert s.frames[0..] == [v, a, w] && [v, a, w][1..] == [a, w] && [a, w][1..] == [w] && [w][1..] == [];
    assert Greedy([w], 0, 2, 1) == [w] + Greedy([], 0, 2, 2);
    assert Greedy([a, w], 0, 2, 1) == [w];
  }

  lemma MergeOfThree(a: FrameHeader, v: FrameHeader, w: FrameHeader)
    requires a.offset == v.offset < w.offset
    ensures Merge([a], [v, w]) == [v, a, w] && StableSort([a] + [v, w], false) == [a, v, w]
  {
    assert [v, w][1..] == [w] && [a][1..] == [] && [w][1..] == [];
    assert Merge([], [w]) == [w] + Merge([], []);
    assert Merge([a], [w]) == [a] + Merge([], [w]);
    assert Merge([a], [v, w]) == [v] + Merge([a], [w]);
    assert [a] + [v, w] == [a, v, w] && [a, v, w][1..] == [v, w];
    assert StableSort([w], false) == [w];
    assert StableSort([v, w], false) == [v, w];
  }
}
