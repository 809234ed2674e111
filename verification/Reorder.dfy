/** Handing frames on in a chosen order, whatever order they arrive in. */
module Reorder {
  import opened Media
  import opened SampleTable
  import opened Demuxer

  // ----- Ordering the expected frames -----

  /** Frames are ordered by timestamp or by file offset. */
  function Key(h: FrameHeader, byTimestamp: bool): int {
    if byTimestamp then h.decodingTimestamp else h.offset
  }

  function InsertSorted(h: FrameHeader, s: seq<FrameHeader>, byTimestamp: bool): seq<FrameHeader> {
    if s == [] || Key(h, byTimestamp) <= Key(s[0], byTimestamp) then [h] + s
    else [s[0]] + InsertSorted(h, s[1..], byTimestamp)
  }

  /** The stable sort of the standard library, by its result. */
  function StableSort(s: seq<FrameHeader>, byTimestamp: bool): seq<FrameHeader> {
    if s == [] then [] else InsertSorted(s[0], StableSort(s[1..], byTimestamp), byTimestamp)
  }

  ghost predicate SortedBy(s: seq<FrameHeader>, byTimestamp: bool) {
    forall i, j :: 0 <= i < j < |s| ==> Key(s[i], byTimestamp) <= Key(s[j], byTimestamp)
  }

  /** The elements with a given key, in order. */
  function WithKey(s: seq<FrameHeader>, key: int, byTimestamp: bool): seq<FrameHeader> {
    if s == [] then []
    else (if Key(s[0], byTimestamp) == key then [s[0]] else []) + WithKey(s[1..], key, byTimestamp)
  }

  lemma {:induction false} InsertKeepsElements(h: FrameHeader, s: seq<FrameHeader>, byTimestamp: bool)
    ensures multiset(InsertSorted(h, s, byTimestamp)) == multiset{h} + multiset(s)
  {
    if s != [] && Key(h, byTimestamp) > Key(s[0], byTimestamp) {
      InsertKeepsElements(h, s[1..], byTimestamp);
      assert s == [s[0]] + s[1..];
    }
  }

  lemma PrependKeepsOrder(h: FrameHeader, s: seq<FrameHeader>, byTimestamp: bool)
    requires SortedBy(s, byTimestamp) && forall x :: x in s ==> Key(h, byTimestamp) <= Key(x, byTimestamp)
    ensures SortedBy([h] + s, byTimestamp)
  {
  }

  lemma {:induction false} InsertKeepsOrder(h: FrameHeader, s: seq<FrameHeader>, byTimestamp: bool)
    requires SortedBy(s, byTimestamp)
    ensures SortedBy(InsertSorted(h, s, byTimestamp), byTimestamp)
  {
    if s == [] || Key(h, byTimestamp) <= Key(s[0], byTimestamp) {
      PrependKeepsOrder(h, s, byTimestamp);
    } else {
      var rest := InsertSorted(h, s[1..], byTimestamp);
      InsertKeepsOrder(h, s[1..], byTimestamp);
      InsertKeepsElements(h, s[1..], byTimestamp);
      forall x | x in rest ensures Key(s[0], byTimestamp) <= Key(x, byTimestamp) {
        assert x in multiset(rest);
      }
      PrependKeepsOrder(s[0], rest, byTimestamp);
    }
  }

  lemma {:induction false} InsertIsStable(h: FrameHeader, s: seq<FrameHeader>, key: int, byTimestamp: bool)
    ensures WithKey(InsertSorted(h, s, byTimestamp), key, byTimestamp)
         == (if Key(h, byTimestamp) == key then [h] else []) + WithKey(s, key, byTimestamp)
      || !SortedBy(s, byTimestamp)
  {
    if s == [] || Key(h, byTimestamp) <= Key(s[0], byTimestamp) {
      assert ([h] + s)[1..] == s;
    } else if SortedBy(s, byTimestamp) {
      var rest := InsertSorted(h, s[1..], byTimestamp);
      InsertIsStable(h, s[1..], key, byTimestamp);
      assert ([s[0]] + rest)[1..] == rest;
    }
  }

  /** The result is sorted, has the same frames, and keeps the order of frames
      with equal keys. */
  lemma {:induction false} StableSortFacts(s: seq<FrameHeader>, byTimestamp: bool)
    ensures SortedBy(StableSort(s, byTimestamp), byTimestamp)
    ensures multiset(StableSort(s, byTimestamp)) == multiset(s)
    ensures forall key :: WithKey(StableSort(s, byTimestamp), key, byTimestamp) == WithKey(s, key, byTimestamp)
  {
    if s != [] {
      StableSortFacts(s[1..], byTimestamp);
      var rest := StableSort(s[1..], byTimestamp);
      InsertKeepsElements(s[0], rest, byTimestamp);
      InsertKeepsOrder(s[0], rest, byTimestamp);
      assert s == [s[0]] + s[1..];
      forall key ensures WithKey(StableSort(s, byTimestamp), key, byTimestamp) == WithKey(s, key, byTimestamp) {
        InsertIsStable(s[0], rest, key, byTimestamp);
      }
    }
  }

  /** The order expected of two tracks: by time or by place, as asked, and nothing lost. */
  lemma ExpectedOrder(audio: seq<FrameHeader>, video: seq<FrameHeader>, byTimestamp: bool)
    ensures var s := StableSort(audio + video, byTimestamp);
      && multiset(s) == multiset(audio) + multiset(video)
      && forall i, j :: 0 <= i < j < |s| ==>
           if byTimestamp then s[i].decodingTimestamp <= s[j].decodingTimestamp else s[i].offset <= s[j].offset
  {
    StableSortFacts(audio + video, byTimestamp);
    var s := StableSort(audio + video, byTimestamp);
    forall i, j | 0 <= i < j < |s|
      ensures if byTimestamp then s[i].decodingTimestamp <= s[j].decodingTimestamp else s[i].offset <= s[j].offset
    {
      assert Key(s[i], byTimestamp) <= Key(s[j], byTimestamp);
    }
  }

  // ----- The reorder buffer -----

  datatype F4vTag =
    | MoovTag(audio: Track, video: Track)
    | OtherAtom
    | FrameTag(frame: Frame)

  function Offsets(s: seq<FrameHeader>): set<int> {
    set i | 0 <= i < |s| :: s[i].offset
  }

  /** The k-th expected frame can be served: its offset is there, and no earlier
      expected frame has taken it. */
  predicate Due(s: seq<FrameHeader>, ready: set<int>, k: nat)
    requires k < |s|
  {
    s[k].offset in ready && forall i :: 0 <= i < k ==> s[i].offset != s[k].offset
  }

  /** Up to where the expected frames can be served, from n on. */
  function ReadyFrom(s: seq<FrameHeader>, ready: set<int>, n: nat): (r: nat)
    requires n <= |s|
    ensures n <= r <= |s|
    ensures forall k :: n <= k < r ==> Due(s, ready, k)
    ensures r < |s| ==> !Due(s, ready, r)
    decreases |s| - n
  {
    if n == |s| || !Due(s, ready, n) then n else ReadyFrom(s, ready, n + 1)
  }

  /** Length of the longest prefix of the expected frames that can be served. */
  function ReadyPrefix(s: seq<FrameHeader>, ready: set<int>): nat {
    ReadyFrom(s, ready, 0)
  }

  class TagReorder {
    const orderByTimestamp: bool
    var orderedFrames: seq<FrameHeader>
    var orderedNext: nat
    var cache: map<int, F4vTag>
    var output: seq<F4vTag>
    // since the last MOOV: the frames pushed, by offset, the frames sent out, and
    // whether every offset was pushed at most once
    ghost var pushed: map<int, F4vTag>
    ghost var emitted: seq<F4vTag>
    ghost var pushedOnce: bool

    ghost predicate Valid()
      reads this
    {
      && orderedNext == |emitted| <= |orderedFrames|
      && cache.Keys <= pushed.Keys
      && (orderedNext < |orderedFrames| ==> orderedFrames[orderedNext].offset !in cache)
      && (pushedOnce ==> InStep())
    }

    /** The cache holds exactly what was pushed and not sent out, and what was sent
        out are the expected frames in order. */
    ghost predicate InStep()
      requires orderedNext <= |orderedFrames| && orderedNext == |emitted|
      reads this
    {
      && cache == pushed - Offsets(orderedFrames[..orderedNext])
      && forall k :: 0 <= k < orderedNext ==>
           Due(orderedFrames, pushed.Keys, k) && emitted[k] == pushed[orderedFrames[k].offset]
    }

    constructor (orderByTimestamp: bool)
      ensures Valid() && this.orderByTimestamp == orderByTimestamp
      ensures orderedFrames == [] && output == [] && emitted == [] && pushed == map[]
    {
      this.orderByTimestamp := orderByTimestamp;
      orderedFrames, orderedNext, cache, output := [], 0, map[], [];
      pushed, emitted, pushedOnce := map[], [], true;
    }

    method Push(tag: F4vTag)
      requires Valid()
      requires tag.FrameTag? && tag.frame.header.frameType != RawFrame ==> tag.frame.header.offset !in cache
      modifies this
      ensures Valid()
      ensures tag.MoovTag? ==>
        && orderedFrames == StableSort(Headers(tag.audio, true) + Headers(tag.video, false), orderByTimestamp)
        && pushed == map[] && emitted == [] && pushedOnce && output == old(output) + [tag]
      ensures !tag.MoovTag? ==> orderedFrames == old(orderedFrames)
      ensures tag.OtherAtom? || (tag.FrameTag? && tag.frame.header.frameType == RawFrame) ==>
        && output == old(output) + [tag]
        && pushed == old(pushed) && emitted == old(emitted) && pushedOnce == old(pushedOnce)
      ensures tag.FrameTag? && tag.frame.header.frameType != RawFrame ==>
        && pushed == old(pushed)[tag.frame.header.offset := tag]
        && pushedOnce == (old(pushedOnce) && tag.frame.header.offset !in old(pushed))
        && old(emitted) <= emitted && output == old(output) + emitted[|old(emitted)|..]
    {
      if tag.MoovTag? {
        Clear();
        var audio := ExtractFrames(tag.audio, true);
        var video := ExtractFrames(tag.video, false);
        orderedFrames := StableSort(audio + video, orderByTimestamp);
        output := output + [tag];
        return;
      }
      if tag.OtherAtom? {
        output := output + [tag];
        return;
      }
      var header := tag.frame.header;
      if header.frameType == RawFrame {
        output := output + [tag];
        return;
      }
      pushedOnce := pushedOnce && header.offset !in pushed;
      cache := cache[header.offset := tag];
      pushed := pushed[header.offset := tag];
      assert pushedOnce ==> InStep();
      PopCache();
    }

    method Pop() returns (tag: Option<F4vTag>)
      requires Valid()
      modifies this`output
      ensures Valid()
      ensures tag.None? <==> old(output) == []
      ensures tag.Some? ==> old(output) == [tag.value] + output
    {
      if output == [] {
        return None;
      }
      tag := Some(output[0]);
      output := output[1..];
    }

    /** Sends out as many expected frames as are there. */
    method PopCache()
      requires orderedNext == |emitted| <= |orderedFrames| && cache.Keys <= pushed.Keys
      requires pushedOnce ==> InStep()
      modifies this`orderedNext, this`cache, this`output, this`emitted
      ensures Valid()
      ensures old(emitted) <= emitted && output == old(output) + emitted[|old(emitted)|..]
    {
      while true
        invariant orderedNext == |emitted| <= |orderedFrames| && cache.Keys <= pushed.Keys
        invariant pushedOnce ==> InStep()
        invariant old(emitted) <= emitted && output == old(output) + emitted[|old(emitted)|..]
        decreases |orderedFrames| - orderedNext
      {
        if orderedNext >= |orderedFrames| {
          break;
        }
        var next := orderedFrames[orderedNext];
        if next.offset !in cache {
          break;
        }
        var tag := cache[next.offset];
        output := output + [tag];
        ghost var before := Offsets(orderedFrames[..orderedNext]);
        cache := cache - {next.offset};
        emitted := emitted + [tag];
        orderedNext := orderedNext + 1;
        assert Offsets(orderedFrames[..orderedNext]) == before + {next.offset};
      }
    }

    method Clear()
      requires Valid()
      modifies this
      ensures Valid() && orderedFrames == [] && pushed == map[] && emitted == [] && pushedOnce
      ensures output == old(output)
    {
      orderedFrames, orderedNext, cache := [], 0, map[];
      pushed, emitted, pushedOnce := map[], [], true;
    }

    /** Whatever the index expects, when no offset was pushed twice: what has been
        sent out is the longest prefix of the expected frames that can be served,
        and what is held back is all the rest of what was pushed. */
    lemma EmitsLongestReadyPrefix()
      requires Valid() && pushedOnce
      ensures |emitted| == ReadyPrefix(orderedFrames, pushed.Keys)
      ensures forall k :: 0 <= k < |emitted| ==>
        orderedFrames[k].offset in pushed && emitted[k] == pushed[orderedFrames[k].offset]
      ensures cache == pushed - Offsets(orderedFrames[..|emitted|])
    {
      var n := ReadyPrefix(orderedFrames, pushed.Keys);
      if orderedNext < |orderedFrames| {
        var o := orderedFrames[orderedNext].offset;
        if o in pushed {
          assert o in Offsets(orderedFrames[..orderedNext]);
        }
        assert !Due(orderedFrames, pushed.Keys, orderedNext);
      }
    }
  }
}
