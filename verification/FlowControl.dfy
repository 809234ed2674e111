/** Dropping tags towards a client that cannot keep up. */
module FlowControl {

  /** What a tag does on its way through: it may open a stretch of the stream (a
      started source, a seek performed), be media or signalling, or be ignored. */
  datatype Role = Opening | Passing | Ignored

  datatype Tag = Tag(role: Role, isVideo: bool, isAudio: bool, droppable: bool, canResync: bool, content: int)

  predicate IsInterframe(tag: Tag) {
    tag.isVideo && tag.droppable && !tag.canResync
  }

  predicate IsResync(tag: Tag) {
    tag.isVideo && tag.droppable && tag.canResync
  }

  /** The client is too far behind for such a tag. */
  predicate Overloads(tag: Tag, totalLimit: int, videoLimit: int, scheduledMs: int) {
    && tag.droppable
    && (((tag.isVideo || tag.isAudio) && totalLimit > 0 && scheduledMs > totalLimit) ||
        (tag.isVideo && videoLimit > 0 && scheduledMs > videoLimit))
  }

  datatype Event = Mark | Forwarded(tag: Tag) | Dropped(tag: Tag)

  /** A break in the video that a client must not be led across. */
  predicate IsBreak(event: Event) {
    event.Mark? || event.Dropped?
  }

  /** No resync point has been forwarded since the last break. */
  function Dropping(log: seq<Event>): bool {
    if log == [] then false
    else
      var last := log[|log| - 1];
      IsBreak(last) || (!IsResync(last.tag) && Dropping(log[..|log| - 1]))
  }

  /** What the log of any history of tags and loads obeys. */
  ghost predicate Legal(log: seq<Event>) {
    log == [] || (Legal(log[..|log| - 1]) && MayFollow(log[..|log| - 1], log[|log| - 1]))
  }

  /** Only droppable tags are dropped, and no inter-frame is forwarded while dropping. */
  ghost predicate MayFollow(log: seq<Event>, event: Event) {
    && (event.Dropped? ==> event.tag.droppable)
    && (event.Forwarded? && IsInterframe(event.tag) ==> !Dropping(log))
  }

  lemma {:induction false} LegalAt(log: seq<Event>, i: nat)
    requires Legal(log) && i < |log|
    ensures MayFollow(log[..i], log[i])
  {
    if i < |log| - 1 {
      LegalAt(log[..|log| - 1], i);
      assert log[..|log| - 1][..i] == log[..i];
    }
  }

  /** What becomes of a tag: dropped when the client is too far behind, and so are
      inter-frames until the next resync point. */
  function Fate(log: seq<Event>, tag: Tag, totalLimit: int, videoLimit: int, scheduledMs: int): Event {
    if Overloads(tag, totalLimit, videoLimit, scheduledMs) || (IsInterframe(tag) && Dropping(log)) then Dropped(tag)
    else Forwarded(tag)
  }

  lemma LegalAppend(log: seq<Event>, event: Event)
    requires Legal(log) && MayFollow(log, event)
    ensures Legal(log + [event])
    ensures Dropping(log + [event]) == (IsBreak(event) || (!IsResync(event.tag) && Dropping(log)))
    ensures ForwardedTags(log + [event]) == ForwardedTags(log) + if event.Forwarded? then [event.tag] else []
  {
    assert (log + [event])[..|log|] == log;
  }

  function ForwardedTags(log: seq<Event>): seq<Tag> {
    if log == [] then []
    else ForwardedTags(log[..|log| - 1]) + if log[|log| - 1].Forwarded? then [log[|log| - 1].tag] else []
  }

  class Exporter {
    // 0 or less for no limit
    const flowControlTotalMs: int
    const flowControlVideoMs: int
    var droppingInterframes: bool
    var videoDropped: nat
    var audioDropped: nat
    // what has been scheduled for the network thread
    var scheduled: seq<Tag>
    ghost var log: seq<Event>

    ghost predicate Valid()
      reads this
    {
      Legal(log) && droppingInterframes == Dropping(log) && scheduled == ForwardedTags(log)
    }

    constructor (totalMs: int, videoMs: int)
      ensures Valid() && log == [] && flowControlTotalMs == totalMs && flowControlVideoMs == videoMs
    {
      flowControlTotalMs, flowControlVideoMs := totalMs, videoMs;
      droppingInterframes, videoDropped, audioDropped := false, 0, 0;
      scheduled, log := [], [];
    }

    /** Drops or schedules a tag, given how much is scheduled already. */
    method HandleTag(tag: Tag, scheduledMs: int)
      requires Valid()
      modifies this
      ensures Valid()
      ensures log == old(log) + [Fate(old(log), tag, flowControlTotalMs, flowControlVideoMs, scheduledMs)]
      ensures var dropped := Fate(old(log), tag, flowControlTotalMs, flowControlVideoMs, scheduledMs).Dropped?;
        && scheduled == (if dropped then old(scheduled) else old(scheduled) + [tag])
        && videoDropped == old(videoDropped) + (if dropped && tag.isVideo then 1 else 0)
        && audioDropped == old(audioDropped) + (if dropped && tag.isAudio then 1 else 0)
    {
      var dropTag :=
        (droppingInterframes && tag.isVideo && tag.droppable && !tag.canResync) ||
        ((tag.isVideo || tag.isAudio) && flowControlTotalMs > 0 && tag.droppable && scheduledMs > flowControlTotalMs) ||
        (tag.isVideo && flowControlVideoMs > 0 && tag.droppable && scheduledMs > flowControlVideoMs);
      ghost var fate := Fate(log, tag, flowControlTotalMs, flowControlVideoMs, scheduledMs);
      assert fate == if dropTag then Dropped(tag) else Forwarded(tag);
      LegalAppend(log, fate);
      log := log + [fate];
      droppingInterframes := droppingInterframes || dropTag;
      if dropTag && tag.droppable {
        if tag.isVideo {
          videoDropped := videoDropped + 1;
        }
        if tag.isAudio {
          audioDropped := audioDropped + 1;
        }
        return;
      }
      if droppingInterframes && tag.isVideo && tag.canResync && tag.droppable {
        droppingInterframes := false;
      }
      scheduled := scheduled + [tag];
    }

    method ProcessTag(tag: Tag, scheduledMs: int)
      requires Valid()
      modifies this
      ensures Valid()
      ensures var before := if tag.role.Opening? then old(log) + [Mark] else old(log);
        log == if tag.role.Ignored? then before
               else before + [Fate(before, tag, flowControlTotalMs, flowControlVideoMs, scheduledMs)]
    {
      if tag.role.Ignored? {
        return;
      }
      if tag.role.Opening? {
        LegalAppend(log, Mark);
        droppingInterframes := true;
        log := log + [Mark];
      }
      HandleTag(tag, scheduledMs);
    }
  }

  /** Event k forwarded a video keyframe, and nothing was broken off from there to n. */
  ghost predicate GroupFrom(log: seq<Event>, k: nat, n: nat)
    requires k < n <= |log|
  {
    log[k].Forwarded? && IsResync(log[k].tag) && forall j :: k < j < n ==> !IsBreak(log[j])
  }

  /** Not dropping means: a picture group is open, or nothing has ever been broken. */
  lemma {:induction false} DroppingIff(log: seq<Event>)
    ensures !Dropping(log) <==>
      (exists k :: 0 <= k < |log| && GroupFrom(log, k, |log|)) || (forall j :: 0 <= j < |log| ==> !IsBreak(log[j]))
  {
    if log != [] {
      var n := |log| - 1;
      var before := log[..n];
      DroppingIff(before);
      if IsBreak(log[n]) {
        assert forall k :: 0 <= k < |log| && GroupFrom(log, k, |log|) ==> k == n || !IsBreak(log[n]);
      } else if IsResync(log[n].tag) {
        assert GroupFrom(log, n, |log|);
      } else {
        forall k | 0 <= k < n ensures GroupFrom(log, k, |log|) <==> GroupFrom(before, k, n) {
        }
        assert !GroupFrom(log, n, |log|);
      }
    }
  }

  /** For every history of tags and loads: once a source has started or a seek was
      performed, a forwarded droppable inter-frame follows a forwarded droppable
      keyframe with nothing dropped, and no new start, in between. */
  lemma PictureGroupsIntact(log: seq<Event>, m: nat, i: nat)
    requires Legal(log) && m < i < |log| && IsBreak(log[m])
    requires log[i].Forwarded? && IsInterframe(log[i].tag)
    ensures exists k :: m < k < i && GroupFrom(log, k, i)
  {
    var before := log[..i];
    LegalAt(log, i);
    DroppingIff(before);
    assert IsBreak(before[m]);
    var k :| 0 <= k < i && GroupFrom(before, k, i);
    assert GroupFrom(log, k, i);
  }

  /** Tags that are not droppable always get through. */
  lemma OnlyDroppablesDropped(log: seq<Event>, i: nat)
    requires Legal(log) && i < |log| && log[i].Dropped?
    ensures log[i].tag.droppable
  {
    LegalAt(log, i);
  }

  /** Nothing protects the very beginning: before any break an inter-frame is
      forwarded, keyframe or not, exactly when the client is not too far behind. */
  lemma UnprotectedStart(log: seq<Event>, tag: Tag, totalLimit: int, videoLimit: int, scheduledMs: int)
    requires IsInterframe(tag) && forall j :: 0 <= j < |log| ==> !IsBreak(log[j])
    ensures Fate(log, tag, totalLimit, videoLimit, scheduledMs) == Forwarded(tag) <==>
      !Overloads(tag, totalLimit, videoLimit, scheduledMs)
  {
    DroppingIff(log);
  }

  /** The stream has been broken, and no droppable video keyframe forwarded since. */
  ghost predicate GroupLost(log: seq<Event>) {
    exists m :: 0 <= m < |log| && LostAt(log, m)
  }

  ghost predicate LostAt(log: seq<Event>, m: nat)
    requires m < |log|
  {
    && (log[m].Mark? || log[m].Dropped?)
    && forall k :: m < k < |log| ==>
         !(log[k].Forwarded? && log[k].tag.isVideo && log[k].tag.droppable && log[k].tag.canResync)
  }

  lemma {:induction false} DroppingMeans(log: seq<Event>)
    ensures Dropping(log) <==> GroupLost(log)
  {
    if log != [] {
      var n := |log| - 1;
      var before := log[..n];
      DroppingMeans(before);
      if log[n].Mark? || log[n].Dropped? {
        assert LostAt(log, n);
      } else {
        forall m | 0 <= m < n ensures LostAt(log, m) <==> LostAt(before, m) && !IsResync(log[n].tag) {
          if LostAt(log, m) {
            assert forall k :: m < k < n ==> before[k] == log[k];
          }
        }
      }
    }
  }

  /** Exactly which tags are dropped, by what they are: never one that is not droppable;
      video and audio above the total limit; video above the video limit as well; and
      video without resync while a picture group is lost. */
  lemma DroppedIff(log: seq<Event>, tag: Tag, totalLimit: int, videoLimit: int, scheduledMs: int)
    ensures var fate := Fate(log, tag, totalLimit, videoLimit, scheduledMs);
      && fate == (if fate.Dropped? then Dropped(tag) else Forwarded(tag))
      && (fate.Dropped? <==>
            && tag.droppable
            && (|| ((tag.isVideo || tag.isAudio) && 0 < totalLimit < scheduledMs)
                || (tag.isVideo && 0 < videoLimit < scheduledMs)
                || (tag.isVideo && !tag.canResync && GroupLost(log))))
  {
    DroppingMeans(log);
  }
}
