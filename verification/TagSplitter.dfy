/** Cutting a stream into tags, batching small media tags into composed ones. */
module TagSplitter {
  import opened Media

  /** What matters of a tag; `content` stands for everything else it carries. */
  datatype Tag = Tag(tagType: nat, isAudio: bool, isVideo: bool, canResync: bool, duration: int, content: int)

  datatype Timed = Timed(tag: Tag, timestamp: int)

  datatype ReadStatus = ReadOk | ReadNoData | ReadSkip | ReadCorrupted | ReadEof

  /** There is nothing more to read, for now or for good. */
  predicate Stops(status: ReadStatus) {
    status == ReadNoData || status == ReadEof
  }

  /** One answer of the format's own reader. */
  datatype Read = Got(item: Timed) | Failed(status: ReadStatus)

  /** What a caller receives: a tag as it was read, or several under one timestamp. */
  datatype Out = Single(tag: Tag, timestamp: int) | Composed(tags: seq<Tag>, timestamp: int)

  const MAX_SIZE: nat := 16

  predicate IsComposable(tag: Tag) {
    tag.isAudio || (tag.isVideo && !tag.canResync)
  }

  function Tags(items: seq<Timed>): (r: seq<Tag>)
    ensures |r| == |items|
  {
    if items == [] then [] else Tags(items[..|items| - 1]) + [items[|items| - 1].tag]
  }

  function SingleOut(item: Timed): Out {
    Single(item.tag, item.timestamp)
  }

  /** A composed tag bears the timestamp of its first member; those of the others
      are dropped. */
  function ComposedOut(items: seq<Timed>): Out {
    Composed(Tags(items), if items == [] then 0 else items[0].timestamp)
  }

  function Duration(items: seq<Timed>): int {
    if items == [] then 0 else Duration(items[..|items| - 1]) + items[|items| - 1].tag.duration
  }

  predicate Closed(items: seq<Timed>, limit: int) {
    |items| >= MAX_SIZE || Duration(items) > limit
  }

  /** All the composable tags to come have one type, as a composed tag demands. */
  ghost predicate OneType(input: seq<Read>, mediaType: nat) {
    forall k :: 0 <= k < |input| && input[k].Got? && IsComposable(input[k].item.tag) ==>
      input[k].item.tag.tagType == mediaType
  }

  /** A held-back tag, the composed tag being built (empty when there is none) and
      the answers that the format's own reader will give. */
  datatype State = State(next: Option<Timed>, composed: seq<Timed>, input: seq<Read>)

  datatype Answer = Answer(status: ReadStatus, out: Option<Out>, state: State)

  /** What one call returns, and the state it leaves. */
  function Next(s: State, limit: int, isAtEos: bool): Answer
    decreases |s.input|
  {
    if s.next.Some? then
      Answer(ReadOk, Some(SingleOut(s.next.value)), s.(next := None))
    else if s.composed != [] && Closed(s.composed, limit) then
      Answer(ReadOk, Some(ComposedOut(s.composed)), s.(composed := []))
    else if s.input == [] || s.input[0] == Failed(ReadNoData) then
      var s' := if s.input == [] then s else s.(input := s.input[1..]);
      if s.composed != [] && isAtEos then
        Answer(ReadOk, Some(ComposedOut(s.composed)), s'.(composed := []))
      else
        Answer(if isAtEos then ReadEof else ReadNoData, None, s')
    else if s.input[0].Failed? then
      Answer(s.input[0].status, None, s.(input := s.input[1..]))
    else
      var item, rest := s.input[0].item, s.input[1..];
      if s.composed != [] then
        if IsComposable(item.tag) then
          Next(State(None, s.composed + [item], rest), limit, isAtEos)
        else
          Answer(ReadOk, Some(ComposedOut(s.composed)), State(Some(item), [], rest))
      else if limit > 0 && IsComposable(item.tag) then
        Next(State(None, [item], rest), limit, isAtEos)
      else
        Answer(ReadOk, Some(SingleOut(item)), s.(input := rest))
  }

  method TotalDuration(tags: seq<Tag>, ghost items: seq<Timed>) returns (duration: int)
    requires tags == Tags(items)
    ensures duration == Duration(items)
  {
    duration := 0;
    for i := 0 to |tags|
      invariant duration == Duration(items[..i])
    {
      assert items[..i + 1][..i] == items[..i];
      TagAt(items, i);
      duration := duration + tags[i].duration;
    }
    assert items[..|tags|] == items;
  }

  lemma {:induction false} TagAt(items: seq<Timed>, i: nat)
    requires i < |items|
    ensures Tags(items)[i] == items[i].tag
  {
    if i < |items| - 1 {
      TagAt(items[..|items| - 1], i);
    }
  }

  lemma TagsAppend(items: seq<Timed>, item: Timed)
    ensures Tags(items + [item]) == Tags(items) + [item.tag] && (items != [] ==> (items + [item])[0] == items[0])
  {
    assert (items + [item])[..|items|] == items;
  }

  class TagSplitter {
    const maxCompositionTime: int
    var nextTagToSend: Option<Timed>
    // the composed tag being built, empty when there is none
    var composed: seq<Tag>
    var composedTs: int
    var subTagType: nat
    var input: seq<Read>
    ghost var members: seq<Timed>
    ghost const mediaType: nat

    ghost predicate Valid()
      reads this
    {
      && OneType(input, mediaType)
      && composed == Tags(members)
      && (composed != [] ==> composedTs == members[0].timestamp && subTagType == mediaType)
    }

    ghost function Abstract(): State
      reads this
    {
      State(nextTagToSend, members, input)
    }

    constructor (maxCompositionTime: int, input: seq<Read>, ghost mediaType: nat)
      requires OneType(input, mediaType)
      ensures Valid() && Abstract() == State(None, [], input)
      ensures this.maxCompositionTime == maxCompositionTime && this.mediaType == mediaType
    {
      this.maxCompositionTime, this.input, this.mediaType := maxCompositionTime, input, mediaType;
      nextTagToSend, composed, composedTs, subTagType, members := None, [], 0, 0, [];
    }

    /** Asks the format's own reader. */
    method GetNextTagInternal() returns (read: Read)
      requires Valid()
      modifies `input
      ensures Valid()
      ensures if old(input) == [] then read == Failed(ReadNoData) && input == []
              else read == old(input)[0] && input == old(input)[1..]
    {
      if input == [] {
        return Failed(ReadNoData);
      }
      read := input[0];
      input := input[1..];
    }

    method SendComposed() returns (out: Out)
      requires Valid() && composed != []
      modifies `composed, `members
      ensures Valid() && Abstract() == old(Abstract()).(composed := []) && out == ComposedOut(old(members))
    {
      out := Composed(composed, composedTs);
      composed, members := [], [];
    }

    /** Adds a tag to the composed tag being built, or to a new one. */
    method AddTag(item: Timed)
      requires Valid() && (composed != [] ==> item.tag.tagType == subTagType) && item.tag.tagType == mediaType
      modifies `composed, `composedTs, `subTagType, `members
      ensures Valid() && Abstract() == old(Abstract()).(composed := old(members) + [item])
    {
      if composed == [] {
        composedTs, subTagType := item.timestamp, item.tag.tagType;
      }
      TagsAppend(members, item);
      composed, members := composed + [item.tag], members + [item];
    }

    method GetNextTag(isAtEos: bool) returns (status: ReadStatus, out: Option<Out>)
      requires Valid()
      modifies this
      ensures Valid() && Answer(status, out, Abstract()) == Next(old(Abstract()), maxCompositionTime, isAtEos)
    {
      ghost var answer := Next(Abstract(), maxCompositionTime, isAtEos);
      while true
        invariant Valid() && Next(Abstract(), maxCompositionTime, isAtEos) == answer
        decreases |input|
      {
        if nextTagToSend.Some? {
          out := Some(Single(nextTagToSend.value.tag, nextTagToSend.value.timestamp));
          nextTagToSend := None;
          return ReadOk, out;
        }
        if composed != [] {
          var duration := TotalDuration(composed, members);
          if |composed| >= MAX_SIZE || duration > maxCompositionTime {
            var sent := SendComposed();
            return ReadOk, Some(sent);
          }
        }
        ghost var before := input;
        var read := GetNextTagInternal();
        if read == Failed(ReadNoData) {
          if composed != [] && isAtEos {
            var sent := SendComposed();
            return ReadOk, Some(sent);
          }
          return if isAtEos then ReadEof else ReadNoData, None;
        }
        if read.Failed? {
          return read.status, None;
        }
        assert read == before[0];
        if composed != [] {
          if IsComposable(read.item.tag) {
            AddTag(read.item);
            continue;
          }
          var sent := SendComposed();
          nextTagToSend := Some(read.item);
          return ReadOk, Some(sent);
        }
        if maxCompositionTime > 0 && IsComposable(read.item.tag) {
          AddTag(read.item);
          continue;
        }
        return ReadOk, Some(Single(read.item.tag, read.item.timestamp));
      }
    }
  }
}
