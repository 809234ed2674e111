/** Batching, whatever the schedule of calls, is the greedy grouping of the tags. */
module TagSplitterFacts {
  import opened Media
  import opened TagSplitter

  // ----- What a correct batching is -----

  datatype Group = Alone(item: Timed) | Batch(items: seq<Timed>)

  function Items(group: Group): seq<Timed> {
    if group.Alone? then [group.item] else group.items
  }

  function Flatten(groups: seq<Group>): seq<Timed> {
    if groups == [] then [] else Flatten(groups[..|groups| - 1]) + Items(groups[|groups| - 1])
  }

  function Render(group: Group): Out {
    if group.Alone? then SingleOut(group.item) else ComposedOut(group.items)
  }

  /** A batch holds composable tags only, no more than 16, and was not closed
      before its last member. */
  ghost predicate GoodBatch(items: seq<Timed>, limit: int) {
    && items != [] && IsComposable(items[|items| - 1].tag)
    && if |items| == 1 then limit > 0
       else GoodBatch(items[..|items| - 1], limit) && !Closed(items[..|items| - 1], limit)
  }

  /** Audio composes, and video between keyframes. */
  predicate Composes(tag: Tag) {
    tag.isAudio || (tag.isVideo && !tag.canResync)
  }

  lemma {:induction false} GoodBatchMeans(items: seq<Timed>, limit: int)
    requires GoodBatch(items, limit)
    ensures 0 < |items| <= 16 && limit > 0
    ensures forall i :: 0 <= i < |items| ==> Composes(items[i].tag)
    ensures forall n :: 0 < n < |items| ==> Duration(items[..n]) <= limit
  {
    if |items| > 1 {
      var before := items[..|items| - 1];
      GoodBatchMeans(before, limit);
      forall n | 0 < n < |items| ensures Duration(items[..n]) <= limit {
        if n < |before| {
          assert items[..n] == before[..n];
        }
      }
    }
  }

  ghost predicate GoodGroup(group: Group, limit: int) {
    if group.Batch? then GoodBatch(group.items, limit) else limit <= 0 || !IsComposable(group.item.tag)
  }

  /** A batch ends only where it must: it is closed, or what follows does not compose. */
  ghost predicate EndsBefore(group: Group, next: Group, limit: int) {
    group.Batch? ==> Closed(group.items, limit) || (next.Alone? && !IsComposable(next.item.tag))
  }

  ghost predicate Grouped(groups: seq<Group>, limit: int) {
    var n := |groups|;
    n == 0 ||
    (Grouped(groups[..n - 1], limit) && GoodGroup(groups[n - 1], limit) &&
     (n > 1 ==> EndsBefore(groups[n - 2], groups[n - 1], limit)))
  }

  /** The batch that is open after some tags have been read. */
  function Pending(items: seq<Timed>, limit: int): seq<Timed> {
    if items == [] then []
    else
      var before, last := Pending(items[..|items| - 1], limit), items[|items| - 1];
      if limit <= 0 || !IsComposable(last.tag) then []
      else if Closed(before, limit) then [last]
      else before + [last]
  }

  /** Once the reader has run out of data at the end of the stream, it stays so. */
  ghost predicate Drained(input: seq<Read>) {
    forall k, n :: 0 <= k < n < |input| && input[k] == Failed(ReadNoData) ==> !input[n].Got?
  }

  lemma AppendGroup(groups: seq<Group>, g: Group, limit: int)
    requires Grouped(groups, limit) && GoodGroup(g, limit)
    requires groups != [] ==> EndsBefore(groups[|groups| - 1], g, limit)
    ensures Grouped(groups + [g], limit) && Flatten(groups + [g]) == Flatten(groups) + Items(g)
  {
    assert (groups + [g])[..|groups|] == groups;
  }

  /** Growing the last batch by one member. */
  lemma ExtendGroup(groups: seq<Group>, items: seq<Timed>, t: Timed, limit: int)
    requires Grouped(groups, limit) && groups != [] && groups[|groups| - 1] == Batch(items)
    requires !Closed(items, limit) && IsComposable(t.tag)
    ensures Grouped(groups[..|groups| - 1] + [Batch(items + [t])], limit)
    ensures Flatten(groups[..|groups| - 1] + [Batch(items + [t])]) == Flatten(groups) + [t]
  {
    var before := groups[..|groups| - 1];
    assert (items + [t])[..|items|] == items;
    assert GoodBatch(items + [t], limit);
    AppendGroup(before, Batch(items + [t]), limit);
  }

  lemma PendingStep(items: seq<Timed>, t: Timed, limit: int)
    ensures var before := Pending(items, limit);
      Pending(items + [t], limit) ==
      (if limit <= 0 || !IsComposable(t.tag) then []
       else if Closed(before, limit) then [t] else before + [t])
  {
    assert (items + [t])[..|items|] == items;
  }

  lemma SingleBatch(t: Timed, limit: int)
    requires limit > 0 && IsComposable(t.tag)
    ensures GoodBatch([t], limit)
  {
  }

  /** What has been formed and not yet returned. */
  ghost predicate Unsent(tail: seq<Group>, pending: seq<Timed>, next: Option<Timed>, composed: seq<Timed>) {
    if next.Some? then composed == [] && tail == [Alone(next.value)]
    else if composed == [] then tail == []
    else pending != [] && tail == [Batch(pending)] && composed == pending
  }

  ghost predicate LastIs(groups: seq<Group>, pending: seq<Timed>) {
    if pending == [] then groups != [] ==> groups[|groups| - 1].Alone?
    else groups != [] && groups[|groups| - 1] == Batch(pending)
  }

  ghost predicate Consistent(groups: seq<Group>, sent: nat, produced: seq<Timed>, limit: int,
                             next: Option<Timed>, composed: seq<Timed>)
  {
    && Grouped(groups, limit) && Flatten(groups) == produced
    && LastIs(groups, Pending(produced, limit))
    && sent <= |groups| && Unsent(groups[sent..], Pending(produced, limit), next, composed)
  }

  /** A batch that was flushed early is the last one. */
  ghost predicate Settled(produced: seq<Timed>, limit: int, composed: seq<Timed>, input: seq<Read>) {
    var pending := Pending(produced, limit);
    composed == [] && pending != [] ==> Closed(pending, limit) || NoMoreTags(input)
  }

  ghost predicate NoMoreTags(input: seq<Read>) {
    forall k :: 0 <= k < |input| ==> !input[k].Got?
  }

  /** Forming more groups leaves alone those already sent. */
  ghost predicate Keeps(groups: seq<Group>, groups': seq<Group>, sent: nat) {
    sent <= |groups| && sent <= |groups'| && groups'[..sent] == groups[..sent]
  }

  lemma Joins(groups: seq<Group>, sent: nat, produced: seq<Timed>, limit: int, composed: seq<Timed>, t: Timed)
      returns (groups': seq<Group>)
    requires Consistent(groups, sent, produced, limit, None, composed) && composed != []
    requires !Closed(composed, limit) && IsComposable(t.tag)
    ensures Consistent(groups', sent, produced + [t], limit, None, composed + [t])
    ensures Keeps(groups, groups', sent)
  {
    var pending, last := Pending(produced, limit), |groups| - 1;
    assert groups[sent..][last - sent] == groups[last];
    assert GoodGroup(groups[last], limit);
    PendingStep(produced, t, limit);
    ExtendGroup(groups, pending, t, limit);
    groups' := groups[..last] + [Batch(pending + [t])];
    assert groups'[sent..] == [Batch(pending + [t])];
  }

  lemma BreaksUp(groups: seq<Group>, sent: nat, produced: seq<Timed>, limit: int, composed: seq<Timed>, t: Timed)
      returns (groups': seq<Group>)
    requires Consistent(groups, sent, produced, limit, None, composed) && composed != []
    requires !IsComposable(t.tag)
    ensures Consistent(groups', sent + 1, produced + [t], limit, Some(t), [])
    ensures Keeps(groups, groups', sent) && ComposedOut(composed) == Render(groups'[sent])
  {
    PendingStep(produced, t, limit);
    AppendGroup(groups, Alone(t), limit);
    assert groups[sent] == groups[sent..][0];
    groups' := groups + [Alone(t)];
    assert groups'[sent + 1..] == [Alone(t)];
  }

  lemma Opens(groups: seq<Group>, sent: nat, produced: seq<Timed>, limit: int, t: Timed)
      returns (groups': seq<Group>)
    requires Consistent(groups, sent, produced, limit, None, [])
    requires limit > 0 && IsComposable(t.tag)
    requires var pending := Pending(produced, limit); pending != [] ==> Closed(pending, limit)
    ensures Consistent(groups', sent, produced + [t], limit, None, [t])
    ensures Keeps(groups, groups', sent)
  {
    PendingStep(produced, t, limit);
    SingleBatch(t, limit);
    AppendGroup(groups, Batch([t]), limit);
    groups' := groups + [Batch([t])];
    assert groups'[sent..] == [Batch([t])];
  }

  lemma PassesThrough(groups: seq<Group>, sent: nat, produced: seq<Timed>, limit: int, t: Timed)
      returns (groups': seq<Group>)
    requires Consistent(groups, sent, produced, limit, None, [])
    requires limit <= 0 || !IsComposable(t.tag)
    ensures Consistent(groups', sent + 1, produced + [t], limit, None, [])
    ensures Keeps(groups, groups', sent) && SingleOut(t) == Render(groups'[sent])
  {
    var pending := Pending(produced, limit);
    PendingStep(produced, t, limit);
    if groups != [] && groups[|groups| - 1].Batch? {
      assert GoodGroup(groups[|groups| - 1], limit);
    }
    AppendGroup(groups, Alone(t), limit);
    groups' := groups + [Alone(t)];
    assert groups'[sent + 1..] == [];
  }

  lemma Sends(groups: seq<Group>, sent: nat, produced: seq<Timed>, limit: int, next: Option<Timed>,
      composed: seq<Timed>)
    requires Consistent(groups, sent, produced, limit, next, composed) && (next.Some? || composed != [])
    ensures Consistent(groups, sent + 1, produced, limit, None, [])
    ensures Render(groups[sent]) == if next.Some? then SingleOut(next.value) else ComposedOut(composed)
  {
    assert groups[sent..][0] == groups[sent] && groups[sent + 1..] == groups[sent..][1..];
  }

  ghost predicate Inv(s: State, groups: seq<Group>, sent: nat, produced: seq<Timed>, limit: int) {
    && Consistent(groups, sent, produced, limit, s.next, s.composed)
    && Settled(produced, limit, s.composed, s.input)
  }

  /** The tags still to be produced. */
  function Coming(input: seq<Read>): seq<Timed> {
    if input == [] then []
    else (if input[0].Got? then [input[0].item] else []) + Coming(input[1..])
  }

  function OutOf(a: Answer): seq<Out> {
    if a.out.Some? then [a.out.value] else []
  }

  ghost predicate Rendered(outs: seq<Out>, groups: seq<Group>, sent: nat) {
    sent + |outs| <= |groups| && forall k :: 0 <= k < |outs| ==> outs[k] == Render(groups[sent + k])
  }

  /** What a call may do to the groups: form more, and send at most the next one. */
  ghost predicate Progress(s: State, groups: seq<Group>, sent: nat, produced: seq<Timed>, limit: int,
                           a: Answer, groups': seq<Group>, produced': seq<Timed>)
  {
    && Inv(a.state, groups', sent + |OutOf(a)|, produced', limit)
    && Keeps(groups, groups', sent) && Rendered(OutOf(a), groups', sent)
    && (a.out.None? ==> a.state.next == None && (a.state.composed != [] ==> !Closed(a.state.composed, limit)))
    && produced' + Coming(a.state.input) == produced + Coming(s.input)
  }

  lemma SendProgress(s: State, groups: seq<Group>, sent: nat, produced: seq<Timed>, limit: int, a: Answer)
    requires Inv(s, groups, sent, produced, limit) && (s.next.Some? || s.composed != [])
    requires s.next == None ==> Closed(s.composed, limit) || NoMoreTags(a.state.input)
    requires a.out == Some(if s.next.Some? then SingleOut(s.next.value)
                           else ComposedOut(s.composed))
    requires a.state.next == None && a.state.composed == []
    requires Coming(a.state.input) == Coming(s.input) && (NoMoreTags(s.input) ==> NoMoreTags(a.state.input))
    ensures Progress(s, groups, sent, produced, limit, a, groups, produced)
  {
    Sends(groups, sent, produced, limit, s.next, s.composed);
    SettledAfterSend(s, groups, sent, produced, limit, a.state.input);
    assert sent < |groups|;
  }

  lemma SettledAfterSend(s: State, groups: seq<Group>, sent: nat, produced: seq<Timed>, limit: int, input: seq<Read>)
    requires Inv(s, groups, sent, produced, limit) && (s.next.Some? || s.composed != [])
    requires s.next == None ==> Closed(s.composed, limit) || NoMoreTags(input)
    requires NoMoreTags(s.input) ==> NoMoreTags(input)
    ensures Settled(produced, limit, [], input)
  {
  }

  lemma QuietProgress(s: State, groups: seq<Group>, sent: nat, produced: seq<Timed>, limit: int, a: Answer)
    requires Inv(s, groups, sent, produced, limit) && s.next == None && !(s.composed != [] && Closed(s.composed, limit))
    requires a.out == None && a.state == s.(input := a.state.input)
    requires Coming(a.state.input) == Coming(s.input) && (NoMoreTags(s.input) ==> NoMoreTags(a.state.input))
    ensures Progress(s, groups, sent, produced, limit, a, groups, produced)
  {
  }

  /** The state after the tag that comes next has gone into a composed tag. */
  function Joined(s: State): State
    requires s.input != [] && s.input[0].Got?
  {
    var t := s.input[0].item;
    if s.composed == [] then State(None, [t], s.input[1..])
    else State(None, s.composed + [t], s.input[1..])
  }

  /** The tag that comes next goes into a composed tag. */
  predicate WillJoin(s: State, limit: int) {
    && s.next == None && s.input != [] && s.input[0].Got? && IsComposable(s.input[0].item.tag)
    && (if s.composed == [] then limit > 0 else !Closed(s.composed, limit))
  }

  lemma NextJoins(s: State, limit: int, isAtEos: bool)
    requires WillJoin(s, limit)
    ensures Next(s, limit, isAtEos) == Next(Joined(s), limit, isAtEos)
  {
  }

  lemma JoinProgress(s: State, groups: seq<Group>, sent: nat, produced: seq<Timed>, limit: int, t: Timed)
      returns (groups': seq<Group>)
    requires Inv(s, groups, sent, produced, limit) && s.next == None && s.input != [] && s.input[0] == Got(t)
    requires IsComposable(t.tag) && (if s.composed == [] then limit > 0 else !Closed(s.composed, limit))
    ensures Inv(Joined(s), groups', sent, produced + [t], limit)
    ensures Keeps(groups, groups', sent)
  {
    if s.composed == [] {
      groups' := Opens(groups, sent, produced, limit, t);
    } else {
      groups' := Joins(groups, sent, produced, limit, s.composed, t);
    }
  }

  lemma BreakProgress(s: State, groups: seq<Group>, sent: nat, produced: seq<Timed>, limit: int, t: Timed, a: Answer)
      returns (groups': seq<Group>)
    requires Inv(s, groups, sent, produced, limit) && s.next == None && s.input != [] && s.input[0] == Got(t)
    requires s.composed != [] && !IsComposable(t.tag)
    requires a == Answer(ReadOk, Some(ComposedOut(s.composed)), State(Some(t), [], s.input[1..]))
    ensures Progress(s, groups, sent, produced, limit, a, groups', produced + [t])
  {
    groups' := BreaksUp(groups, sent, produced, limit, s.composed, t);
    SettledAfterOther(produced, t, limit, a.state.input);
    ComingStep(produced, s.input);
  }

  lemma SettledAfterOther(produced: seq<Timed>, t: Timed, limit: int, input: seq<Read>)
    requires limit <= 0 || !IsComposable(t.tag)
    ensures Settled(produced + [t], limit, [], input)
  {
    PendingStep(produced, t, limit);
  }

  lemma PassProgress(s: State, groups: seq<Group>, sent: nat, produced: seq<Timed>, limit: int, t: Timed, a: Answer)
      returns (groups': seq<Group>)
    requires Inv(s, groups, sent, produced, limit) && s.next == None && s.input != [] && s.input[0] == Got(t)
    requires s.composed == [] && (limit <= 0 || !IsComposable(t.tag))
    requires a == Answer(ReadOk, Some(SingleOut(t)), s.(input := s.input[1..]))
    ensures Progress(s, groups, sent, produced, limit, a, groups', produced + [t])
  {
    groups' := PassesThrough(groups, sent, produced, limit, t);
    SettledAfterOther(produced, t, limit, a.state.input);
    ComingStep(produced, s.input);
  }

  lemma ComingStep(produced: seq<Timed>, input: seq<Read>)
    requires input != [] && input[0].Got?
    ensures (produced + [input[0].item]) + Coming(input[1..]) == produced + Coming(input)
  {
  }

  lemma ProgressAfterJoin(s: State, groups: seq<Group>, sent: nat, produced: seq<Timed>, limit: int,
      s1: State, groups1: seq<Group>, produced1: seq<Timed>, a: Answer, groups': seq<Group>, produced': seq<Timed>)
    requires Keeps(groups, groups1, sent) && produced1 + Coming(s1.input) == produced + Coming(s.input)
    requires Progress(s1, groups1, sent, produced1, limit, a, groups', produced')
    ensures Progress(s, groups, sent, produced, limit, a, groups', produced')
  {
  }

  /** Every call, at whatever point of the stream and however often the reader ran
      out of data, keeps the account: what was returned, what is pending and what
      is to come add up to the tags produced, in order and correctly grouped. */
  lemma {:induction false} NextProgress(s: State, groups: seq<Group>, sent: nat, produced: seq<Timed>, limit: int,
      isAtEos: bool)
      returns (groups': seq<Group>, produced': seq<Timed>)
    requires Inv(s, groups, sent, produced, limit)
    requires isAtEos ==> Drained(s.input)
    ensures Progress(s, groups, sent, produced, limit, Next(s, limit, isAtEos), groups', produced')
    decreases |s.input|
  {
    var a := Next(s, limit, isAtEos);
    if s.next.Some? || (s.composed != [] && Closed(s.composed, limit)) {
      groups', produced' := groups, produced;
      SendProgress(s, groups, sent, produced, limit, a);
    } else if s.input == [] || s.input[0].Failed? {
      groups', produced' := groups, produced;
      if a.out.Some? {
        SendProgress(s, groups, sent, produced, limit, a);
      } else {
        QuietProgress(s, groups, sent, produced, limit, a);
      }
    } else {
      var t := s.input[0].item;
      if s.composed != [] && !IsComposable(t.tag) {
        groups' := BreakProgress(s, groups, sent, produced, limit, t, a);
        produced' := produced + [t];
      } else if s.composed == [] && (limit <= 0 || !IsComposable(t.tag)) {
        groups' := PassProgress(s, groups, sent, produced, limit, t, a);
        produced' := produced + [t];
      } else {
        groups', produced' := NextAfterJoin(s, groups, sent, produced, limit, isAtEos);
      }
    }
  }

  lemma {:induction false} NextAfterJoin(s: State, groups: seq<Group>, sent: nat, produced: seq<Timed>, limit: int,
      isAtEos: bool)
      returns (groups': seq<Group>, produced': seq<Timed>)
    requires Inv(s, groups, sent, produced, limit) && WillJoin(s, limit)
    requires isAtEos ==> Drained(s.input)
    ensures Progress(s, groups, sent, produced, limit, Next(s, limit, isAtEos), groups', produced')
    decreases |s.input|, 0
  {
    var t := s.input[0].item;
    NextJoins(s, limit, isAtEos);
    var groups1 := JoinProgress(s, groups, sent, produced, limit, t);
    ComingStep(produced, s.input);
    groups', produced' := NextProgress(Joined(s), groups1, sent, produced + [t], limit, isAtEos);
    ProgressAfterJoin(s, groups, sent, produced, limit, Joined(s), groups1, produced + [t],
                      Next(s, limit, isAtEos), groups', produced');
  }

  // ----- Whole runs -----

  /** What a series of calls returns, one flag a call telling whether the stream
      has been received entirely. */
  function Outs(s: State, limit: int, flags: seq<bool>): seq<Out>
    decreases |flags|
  {
    if flags == [] then []
    else
      var a := Next(s, limit, flags[0]);
      OutOf(a) + Outs(a.state, limit, flags[1..])
  }

  function After(s: State, limit: int, flags: seq<bool>): State
    decreases |flags|
  {
    if flags == [] then s else After(Next(s, limit, flags[0]).state, limit, flags[1..])
  }

  /** Every call that says the stream has been received entirely is right: the
      reader has no more tags once it runs out of data. */
  ghost predicate FlagsTrue(s: State, limit: int, flags: seq<bool>)
    decreases |flags|
  {
    flags == [] ||
    ((flags[0] ==> Drained(s.input)) && FlagsTrue(Next(s, limit, flags[0]).state, limit, flags[1..]))
  }

  /** What a series of calls that returned `outs` has done to the groups. */
  ghost predicate Account(input: seq<Read>, groups: seq<Group>, sent: nat, produced: seq<Timed>,
                          outs: seq<Out>, input': seq<Read>, groups': seq<Group>, sent': nat, produced': seq<Timed>)
  {
    && sent' == sent + |outs| && Rendered(outs, groups', sent) && Keeps(groups, groups', sent)
    && produced' + Coming(input') == produced + Coming(input)
  }

  lemma NextAccount(s: State, groups: seq<Group>, sent: nat, produced: seq<Timed>, limit: int, isAtEos: bool)
      returns (groups': seq<Group>, sent': nat, produced': seq<Timed>)
    requires Inv(s, groups, sent, produced, limit)
    requires isAtEos ==> Drained(s.input)
    ensures var a := Next(s, limit, isAtEos);
      && Inv(a.state, groups', sent', produced', limit)
      && Account(s.input, groups, sent, produced, OutOf(a), a.state.input, groups', sent', produced')
  {
    groups', produced' := NextProgress(s, groups, sent, produced, limit, isAtEos);
    sent' := sent + |OutOf(Next(s, limit, isAtEos))|;
    ProgressAccount(s, groups, sent, produced, limit, Next(s, limit, isAtEos), groups', produced');
  }

  lemma ProgressAccount(s: State, groups: seq<Group>, sent: nat, produced: seq<Timed>, limit: int, a: Answer,
      groups': seq<Group>, produced': seq<Timed>)
    requires Progress(s, groups, sent, produced, limit, a, groups', produced')
    ensures Inv(a.state, groups', sent + |OutOf(a)|, produced', limit)
    ensures Account(s.input, groups, sent, produced, OutOf(a), a.state.input, groups', sent + |OutOf(a)|, produced')
  {
  }

  lemma {:induction false} RunKeepsAccount(s: State, groups: seq<Group>, sent: nat, produced: seq<Timed>, limit: int,
      flags: seq<bool>)
      returns (groups': seq<Group>, sent': nat, produced': seq<Timed>)
    requires Inv(s, groups, sent, produced, limit)
    requires FlagsTrue(s, limit, flags)
    ensures Inv(After(s, limit, flags), groups', sent', produced', limit)
    ensures Account(s.input, groups, sent, produced, Outs(s, limit, flags), After(s, limit, flags).input, groups',
        sent', produced')
    decreases |flags|
  {
    if flags == [] {
      groups', sent', produced' := groups, sent, produced;
    } else {
      var groups1, sent1, produced1 := NextAccount(s, groups, sent, produced, limit, flags[0]);
      var a, later := Next(s, limit, flags[0]), flags[1..];
      groups', sent', produced' := RunKeepsAccount(a.state, groups1, sent1, produced1, limit, later);
      AccountStep(s.input, groups, sent, produced, OutOf(a), a.state.input, groups1, sent1, produced1,
                  Outs(a.state, limit, later), After(a.state, limit, later).input, groups', sent', produced');
    }
  }

  lemma AccountStep(input: seq<Read>, groups: seq<Group>, sent: nat, produced: seq<Timed>, first: seq<Out>,
      input1: seq<Read>, groups1: seq<Group>, sent1: nat, produced1: seq<Timed>, rest: seq<Out>,
      input': seq<Read>, groups': seq<Group>, sent': nat, produced': seq<Timed>)
    requires Account(input, groups, sent, produced, first, input1, groups1, sent1, produced1)
    requires Account(input1, groups1, sent1, produced1, rest, input', groups', sent', produced')
    ensures Account(input, groups, sent, produced, first + rest, input', groups', sent', produced')
  {
    PrependRendered(first, rest, groups1, groups', sent);
    KeepsMore(groups, groups1, groups', sent, sent1);
  }

  lemma KeepsMore(groups: seq<Group>, groups1: seq<Group>, groups': seq<Group>, sent: nat, now: nat)
    requires Keeps(groups, groups1, sent) && Keeps(groups1, groups', now) && sent <= now
    ensures Keeps(groups, groups', sent)
  {
    assert groups'[..now][..sent] == groups'[..sent] && groups1[..now][..sent] == groups1[..sent];
  }

  lemma PrependRendered(first: seq<Out>, rest: seq<Out>, groups1: seq<Group>, groups': seq<Group>, sent: nat)
    requires Rendered(first, groups1, sent)
    requires Keeps(groups1, groups', sent + |first|) && Rendered(rest, groups', sent + |first|)
    ensures Rendered(first + rest, groups', sent)
  {
    var outs := first + rest;
    forall k | 0 <= k < |outs| ensures outs[k] == Render(groups'[sent + k]) {
      if k < |first| {
        assert groups'[..sent + |first|][sent + k] == groups1[..sent + |first|][sent + k];
      } else {
        assert outs[k] == rest[k - |first|] == Render(groups'[sent + |first| + (k - |first|)]);
      }
    }
  }

  /** For every schedule of calls on a fresh splitter, however often data ran short
      before the end was flagged: the outputs are the first
      groups of a correct grouping of the tags read, all but at most the last of
      them, and the tags read are what the stream had minus what it still has. */
  lemma EveryRunIsGreedy(input: seq<Read>, limit: int, flags: seq<bool>)
      returns (groups: seq<Group>, produced: seq<Timed>)
    requires FlagsTrue(State(None, [], input), limit, flags)
    ensures var s := State(None, [], input);
      && Rendered(Outs(s, limit, flags), groups, 0)
      && |Outs(s, limit, flags)| <= |groups| <= |Outs(s, limit, flags)| + 1
      && Grouped(groups, limit) && Flatten(groups) == produced
      && produced + Coming(After(s, limit, flags).input) == Coming(input)
  {
    var s := State(None, [], input);
    var sent;
    groups, sent, produced := RunKeepsAccount(s, [], 0, [], limit, flags);
    assert [] + Coming(input) == Coming(input);
  }

  // ----- No tag is lost or made up, whatever the flags -----

  function TagsOf(out: Out): seq<Tag> {
    if out.Single? then [out.tag] else out.tags
  }

  function OutTags(outs: seq<Out>): seq<Tag> {
    if outs == [] then [] else TagsOf(outs[0]) + OutTags(outs[1..])
  }

  /** The tags that the splitter holds, in the order in which it will return them. */
  function Held(s: State): seq<Timed> {
    (if s.next.Some? then [s.next.value] else []) + s.composed
  }

  function Ahead(s: State): seq<Tag> {
    Tags(Held(s) + Coming(s.input))
  }

  lemma {:induction false} TagsConcat(a: seq<Timed>, b: seq<Timed>)
    ensures Tags(a + b) == Tags(a) + Tags(b)
  {
    if b == [] {
      assert a + b == a;
    } else {
      var before, last := b[..|b| - 1], b[|b| - 1];
      TagsConcat(a, before);
      assert a + b == (a + before) + [last];
      TagsAppend(a + before, last);
    }
  }

  lemma OutTagsOfHead(out: Out, rest: seq<Out>)
    ensures OutTags([out] + rest) == TagsOf(out) + OutTags(rest)
  {
    assert ([out] + rest)[1..] == rest;
  }

  lemma {:induction false} OutTagsConcat(a: seq<Out>, b: seq<Out>)
    ensures OutTags(a + b) == OutTags(a) + OutTags(b)
  {
    if a == [] {
      assert a + b == b;
    } else {
      OutTagsConcat(a[1..], b);
      assert a + b == [a[0]] + (a[1..] + b);
      OutTagsOfHead(a[0], a[1..] + b);
      Reassociate(TagsOf(a[0]), OutTags(a[1..]), OutTags(b));
    }
  }

  /** A call that does not put a tag into the batch has something to return. */
  predicate HasOut(s: State) {
    s.next.Some? || s.composed != [] || (s.input != [] && s.input[0].Got?)
  }

  /** The tags that it returns, if it does. */
  function OutItems(s: State): seq<Timed>
    requires HasOut(s)
  {
    if s.next.Some? then [s.next.value] else if s.composed != [] then s.composed else [s.input[0].item]
  }

  function OutFor(s: State): Out
    requires HasOut(s)
  {
    if s.next == None && s.composed != [] then ComposedOut(s.composed) else SingleOut(OutItems(s)[0])
  }

  lemma QuietAnswer(s: State, limit: int, isAtEos: bool)
    requires !WillJoin(s, limit) && Next(s, limit, isAtEos).out.None?
    ensures var a := Next(s, limit, isAtEos); Held(a.state) == Held(s) && Coming(a.state.input) == Coming(s.input)
  {
  }

  lemma AnswerOut(s: State, limit: int, isAtEos: bool)
    requires !WillJoin(s, limit) && Next(s, limit, isAtEos).out.Some?
    ensures HasOut(s) && Next(s, limit, isAtEos).out.value == OutFor(s)
  {
  }

  lemma AnswerItems(s: State, limit: int, isAtEos: bool)
    requires !WillJoin(s, limit) && HasOut(s) && Next(s, limit, isAtEos).out.Some?
    ensures var a := Next(s, limit, isAtEos);
      OutItems(s) + (Held(a.state) + Coming(a.state.input)) == Held(s) + Coming(s.input)
  {
  }

  lemma OutTagsOfOne(s: State)
    requires HasOut(s)
    ensures OutTags([OutFor(s)]) == Tags(OutItems(s))
  {
    assert [OutFor(s)] + [] == [OutFor(s)];
    OutTagsOfHead(OutFor(s), []);
    TagsOfOut(s);
  }

  lemma TagsOfOut(s: State)
    requires HasOut(s)
    ensures TagsOf(OutFor(s)) == Tags(OutItems(s))
  {
    var items := OutItems(s);
    if s.next.Some? || s.composed == [] {
      TagsAppend([], items[0]);
      assert [] + [items[0]] == items;
    }
  }

  lemma AnswerConserves(s: State, limit: int, isAtEos: bool)
    requires !WillJoin(s, limit)
    ensures var a := Next(s, limit, isAtEos); OutTags(OutOf(a)) + Ahead(a.state) == Ahead(s)
  {
    var a := Next(s, limit, isAtEos);
    if a.out.None? {
      QuietAnswer(s, limit, isAtEos);
    } else {
      AnswerOut(s, limit, isAtEos);
      AnswerItems(s, limit, isAtEos);
      OutTagsOfOne(s);
      TagsConcat(OutItems(s), Held(a.state) + Coming(a.state.input));
    }
  }

  lemma JoinConserves(s: State, limit: int)
    requires WillJoin(s, limit)
    ensures Ahead(Joined(s)) == Ahead(s)
  {
    assert Held(Joined(s)) + Coming(Joined(s).input) == Held(s) + Coming(s.input);
  }

  /** Every call conserves the tags: those returned, those held and those to come
      add up, in order, to what was held and to come before. */
  lemma {:induction false} NextConserves(s: State, limit: int, isAtEos: bool)
    ensures var a := Next(s, limit, isAtEos); OutTags(OutOf(a)) + Ahead(a.state) == Ahead(s)
    decreases |s.input|
  {
    if WillJoin(s, limit) {
      NextJoins(s, limit, isAtEos);
      NextConserves(Joined(s), limit, isAtEos);
      JoinConserves(s, limit);
    } else {
      AnswerConserves(s, limit, isAtEos);
    }
  }

  /** So does every series of calls, with no assumption on what the flags say. */
  lemma {:induction false} EveryRunConserves(s: State, limit: int, flags: seq<bool>)
    ensures OutTags(Outs(s, limit, flags)) + Ahead(After(s, limit, flags)) == Ahead(s)
    decreases |flags|
  {
    if flags != [] {
      var a, later := Next(s, limit, flags[0]), flags[1..];
      NextConserves(s, limit, flags[0]);
      EveryRunConserves(a.state, limit, later);
      OutTagsConcat(OutOf(a), Outs(a.state, limit, later));
      Reassociate(OutTags(OutOf(a)), OutTags(Outs(a.state, limit, later)), Ahead(After(a.state, limit, later)));
    }
  }

  // ----- What is composed and what is not -----

  /** A composed tag has up to 16 members, each audio or video between keyframes; a tag
      by itself is neither, unless composing is turned off. */
  ghost predicate RightlyPacked(out: Out, limit: int) {
    match out
    case Single(tag, _) => limit <= 0 || !Composes(tag)
    case Composed(tags, _) => limit > 0 && 0 < |tags| <= 16 && forall i :: 0 <= i < |tags| ==> Composes(tags[i])
  }

  /** The same of what the splitter holds. */
  ghost predicate RightlyHeld(s: State, limit: int) {
    && (s.next.Some? ==> limit <= 0 || !Composes(s.next.value.tag))
    && (s.composed != [] ==> limit > 0)
    && |s.composed| <= 16 && forall i :: 0 <= i < |s.composed| ==> Composes(s.composed[i].tag)
  }

  lemma ComposedPacked(items: seq<Timed>, limit: int)
    requires items != [] && RightlyHeld(State(None, items, []), limit)
    ensures RightlyPacked(ComposedOut(items), limit)
  {
    forall i | 0 <= i < |items| ensures Composes(Tags(items)[i]) {
      TagAt(items, i);
    }
  }

  lemma JoinHeld(s: State, limit: int)
    requires RightlyHeld(s, limit) && WillJoin(s, limit)
    ensures RightlyHeld(Joined(s), limit)
  {
  }

  lemma AnswerPacked(s: State, limit: int, isAtEos: bool)
    requires RightlyHeld(s, limit) && !WillJoin(s, limit)
    ensures var a := Next(s, limit, isAtEos);
      RightlyHeld(a.state, limit) && (a.out.Some? ==> RightlyPacked(a.out.value, limit))
  {
    if s.composed != [] {
      ComposedPacked(s.composed, limit);
    }
  }

  lemma {:induction false} NextPacks(s: State, limit: int, isAtEos: bool)
    requires RightlyHeld(s, limit)
    ensures var a := Next(s, limit, isAtEos);
      RightlyHeld(a.state, limit) && (a.out.Some? ==> RightlyPacked(a.out.value, limit))
    decreases |s.input|
  {
    if WillJoin(s, limit) {
      JoinHeld(s, limit);
      NextJoins(s, limit, isAtEos);
      NextPacks(Joined(s), limit, isAtEos);
    } else {
      AnswerPacked(s, limit, isAtEos);
    }
  }

  lemma {:induction false} RunPacks(s: State, limit: int, flags: seq<bool>)
    requires RightlyHeld(s, limit)
    ensures forall i :: 0 <= i < |Outs(s, limit, flags)| ==> RightlyPacked(Outs(s, limit, flags)[i], limit)
    decreases |flags|
  {
    if flags != [] {
      var a := Next(s, limit, flags[0]);
      NextPacks(s, limit, flags[0]);
      RunPacks(a.state, limit, flags[1..]);
    }
  }

  /** In every run: a composed tag has only audio and video between keyframes in it, so
      a video keyframe, and a tag that is neither audio nor video, is returned by itself;
      and with a positive limit nothing else is. */
  lemma EveryRunPacksRightly(input: seq<Read>, limit: int, flags: seq<bool>)
    ensures var outs := Outs(State(None, [], input), limit, flags);
      forall i :: 0 <= i < |outs| ==>
        match outs[i]
        case Single(tag, _) => limit > 0 ==> !(tag.isAudio || (tag.isVideo && !tag.canResync))
        case Composed(tags, _) =>
          limit > 0 && 0 < |tags| <= 16
          && forall k :: 0 <= k < |tags| ==> tags[k].isAudio || (tags[k].isVideo && !tags[k].canResync)
  {
    RunPacks(State(None, [], input), limit, flags);
  }

  /** The total duration of a batch is the sum over its parts. */
  lemma {:induction false} DurationAdds(a: seq<Timed>, b: seq<Timed>)
    ensures Duration(a + b) == Duration(a) + Duration(b)
    ensures |b| == 1 ==> Duration(b) == b[0].tag.duration
  {
    if b == [] {
      assert a + b == a;
    } else {
      var before, last := b[..|b| - 1], b[|b| - 1];
      DurationAdds(a, before);
      assert (a + b)[..|a + b| - 1] == a + before;
    }
  }

  /** A composed tag in full: its members' tags in order, under the time of the first. */
  lemma RenderMeans(items: seq<Timed>)
    requires items != []
    ensures var out := Render(Batch(items));
      && out.Composed? && out.timestamp == items[0].timestamp && |out.tags| == |items|
      && forall i :: 0 <= i < |items| ==> out.tags[i] == items[i].tag
    ensures Render(Alone(items[0])) == Single(items[0].tag, items[0].timestamp)
  {
    forall i | 0 <= i < |items| ensures Tags(items)[i] == items[i].tag {
      TagAt(items, i);
    }
  }

  lemma {:induction false} GroupAt(groups: seq<Group>, limit: int, g: nat)
    requires Grouped(groups, limit) && g < |groups|
    ensures GoodGroup(groups[g], limit)
    ensures g + 1 < |groups| ==> EndsBefore(groups[g], groups[g + 1], limit)
  {
    if g < |groups| - 1 {
      GroupAt(groups[..|groups| - 1], limit, g);
    }
  }

  /** What a correct grouping is, group by group: batches of 1 to 16 that stayed within
      the limit before their last member, each ended only by its size, its duration or
      a tag that does not compose. */
  lemma GroupedMeans(groups: seq<Group>, limit: int, g: nat)
    requires Grouped(groups, limit) && g < |groups|
    ensures groups[g].Alone? ==> limit <= 0 || !Composes(groups[g].item.tag)
    ensures groups[g].Batch? ==>
      var items := groups[g].items;
      && limit > 0 && 0 < |items| <= 16
      && (forall i :: 0 <= i < |items| ==> Composes(items[i].tag))
      && (forall n :: 0 < n < |items| ==> Duration(items[..n]) <= limit)
      && (g + 1 < |groups| ==>
            || |items| == 16 || Duration(items) > limit
            || (groups[g + 1].Alone? && !Composes(groups[g + 1].item.tag)))
  {
    GroupAt(groups, limit, g);
    if groups[g].Batch? {
      GoodBatchMeans(groups[g].items, limit);
    }
  }

  /** What the reader says instead of a tag, next. */
  function NextFailure(input: seq<Read>): ReadStatus {
    if input == [] then ReadNoData else if input[0].Failed? then input[0].status else NextFailure(input[1..])
  }

  /** A call without a tag passes on what the reader said; missing data is the end when
      the stream has been received entirely. */
  lemma {:induction false} StatusMeans(s: State, limit: int, isAtEos: bool)
    ensures var a, failure := Next(s, limit, isAtEos), NextFailure(s.input);
      a.status == if a.out.Some? then ReadOk else if failure == ReadNoData && isAtEos then ReadEof else failure
    decreases |s.input|
  {
    if WillJoin(s, limit) {
      NextJoins(s, limit, isAtEos);
      StatusMeans(Joined(s), limit, isAtEos);
    }
  }

  // ----- The tags determine their groups -----

  lemma {:induction false} BatchPending(before: seq<Timed>, items: seq<Timed>, limit: int)
    requires GoodBatch(items, limit)
    requires var p := Pending(before, limit); p != [] ==> Closed(p, limit)
    ensures Pending(before + items, limit) == items
  {
    var n := |items| - 1;
    assert before + items == (before + items[..n]) + [items[n]];
    PendingStep(before + items[..n], items[n], limit);
    assert items == items[..n] + [items[n]];
    if n == 0 {
      assert before + items[..n] == before;
      assert Closed([], limit) ==> limit <= 0;
    } else {
      BatchPending(before, items[..n], limit);
    }
  }

  /** The last group of a correct grouping is determined by the tags alone. */
  lemma {:induction false} LastGroup(groups: seq<Group>, limit: int)
    requires Grouped(groups, limit)
    ensures LastIs(groups, Pending(Flatten(groups), limit))
  {
    if groups != [] {
      var before, g := groups[..|groups| - 1], groups[|groups| - 1];
      LastGroup(before, limit);
      if g.Alone? {
        PendingStep(Flatten(before), g.item, limit);
      } else {
        BatchPending(Flatten(before), g.items, limit);
      }
    }
  }

  lemma LastItem(groups: seq<Group>, limit: int)
    requires Grouped(groups, limit) && groups != []
    ensures Flatten(groups) != []
    ensures groups[|groups| - 1].Alone? ==> groups[|groups| - 1] == Alone(Flatten(groups)[|Flatten(groups)| - 1])
  {
  }

  lemma LastGroupAgrees(a: seq<Group>, b: seq<Group>, limit: int)
    requires Grouped(a, limit) && Grouped(b, limit) && Flatten(a) == Flatten(b) && a != [] && b != []
    ensures a[|a| - 1] == b[|b| - 1]
  {
    LastGroup(a, limit);
    LastGroup(b, limit);
    LastItem(a, limit);
    LastItem(b, limit);
  }

  lemma WithoutLast(a: seq<Group>, b: seq<Group>)
    requires a != [] && b != [] && a[|a| - 1] == b[|b| - 1] && Flatten(a) == Flatten(b)
    ensures Flatten(a[..|a| - 1]) == Flatten(b[..|b| - 1])
  {
    SameHead(Flatten(a[..|a| - 1]), Flatten(b[..|b| - 1]), Items(a[|a| - 1]));
  }

  lemma SameHead<T>(a: seq<T>, b: seq<T>, tail: seq<T>)
    requires a + tail == b + tail
    ensures a == b
  {
    assert a == (a + tail)[..|a|] && b == (b + tail)[..|b|];
  }

  lemma SameBut<T>(a: seq<T>, b: seq<T>)
    requires a != [] && b != [] && a[..|a| - 1] == b[..|b| - 1] && a[|a| - 1] == b[|b| - 1]
    ensures a == b
  {
    assert a == a[..|a| - 1] + [a[|a| - 1]] && b == b[..|b| - 1] + [b[|b| - 1]];
  }

  /** The tags determine their grouping. So every schedule of calls that gets all
      the tags out of a stream gets them out in the same groups. */
  lemma {:induction false} GroupingIsUnique(a: seq<Group>, b: seq<Group>, limit: int)
    requires Grouped(a, limit) && Grouped(b, limit) && Flatten(a) == Flatten(b)
    ensures a == b
  {
    if a == [] || b == [] {
      NoGroups(a, limit);
      NoGroups(b, limit);
    } else {
      LastGroupAgrees(a, b, limit);
      WithoutLast(a, b);
      GroupingIsUnique(a[..|a| - 1], b[..|b| - 1], limit);
      SameBut(a, b);
    }
  }

  lemma NoGroups(groups: seq<Group>, limit: int)
    requires Grouped(groups, limit) && Flatten(groups) == []
    ensures groups == []
  {
  }

  /** An Eof that stands for "no data" leaves nothing behind. */
  lemma {:induction false} EofOfNoDataDelivers(s: State, limit: int)
    requires forall k :: 0 <= k < |s.input| ==> s.input[k] != Failed(ReadEof)
    ensures var a := Next(s, limit, true); a.status == ReadEof ==> a.state.next == None && a.state.composed == []
    decreases |s.input|
  {
    if WillJoin(s, limit) {
      NextJoins(s, limit, true);
      EofOfNoDataDelivers(Joined(s), limit);
    }
  }

  // ----- An Eof of the format's own reader -----

  /** The reader reports an Eof of its own, before it runs out of data. */
  ghost predicate EndsInEof(input: seq<Read>) {
    && input != [] && input[|input| - 1] == Failed(ReadEof)
    && forall k :: 0 <= k < |input| - 1 ==> input[k].Got? || !Stops(input[k].status)
  }

  /** The batch in the making is the open one, whatever has been returned. */
  ghost predicate Tracks(s: State, produced: seq<Timed>, limit: int) {
    var pending := Pending(produced, limit);
    if s.next.Some? then s.composed == [] && pending == []
    else if s.composed == [] then pending == [] || Closed(pending, limit)
    else s.composed == pending
  }

  /** A bound on how many more calls return a tag or skip something. */
  function Work(s: State): nat {
    2 * |s.input| + (if s.next.Some? then 1 else 0) + (if s.composed != [] then 1 else 0)
  }

  lemma {:induction false} NextWorks(s: State, limit: int, isAtEos: bool)
    ensures var a := Next(s, limit, isAtEos); !Stops(a.status) ==> Work(a.state) < Work(s)
    decreases |s.input|
  {
    if WillJoin(s, limit) {
      NextJoins(s, limit, isAtEos);
      NextWorks(Joined(s), limit, isAtEos);
    }
  }

  /** The state after reading, past what is skipped, until a call reports an end. */
  function Drain(s: State, limit: int): State
    decreases Work(s)
  {
    NextWorks(s, limit, true);
    var a := Next(s, limit, true);
    if Stops(a.status) then a.state else Drain(a.state, limit)
  }

  /** What a call does on the way to such an Eof. */
  ghost predicate EofNear(limit: int, a: Answer) {
    if Stops(a.status) then
      a.state.input == [] && a.state.next == None && (a.state.composed != [] ==> !Closed(a.state.composed, limit))
    else
      EndsInEof(a.state.input)
  }

  ghost predicate TracksOn(s: State, produced: seq<Timed>, limit: int, a: Answer, produced': seq<Timed>) {
    && Tracks(a.state, produced', limit)
    && produced' + Coming(a.state.input) == produced + Coming(s.input)
    && (EndsInEof(s.input) ==> EofNear(limit, a))
  }

  lemma EofStaysAhead(input: seq<Read>)
    requires EndsInEof(input) && !(input[0].Failed? && Stops(input[0].status))
    ensures EndsInEof(input[1..])
  {
  }

  lemma JoinTracks(s: State, produced: seq<Timed>, limit: int)
    requires Tracks(s, produced, limit) && s.input != [] && WillJoin(s, limit)
    ensures Tracks(Joined(s), produced + [s.input[0].item], limit)
  {
    PendingStep(produced, s.input[0].item, limit);
  }

  lemma AnswerIsNear(s: State, limit: int, isAtEos: bool)
    requires EndsInEof(s.input) && !WillJoin(s, limit)
    ensures EofNear(limit, Next(s, limit, isAtEos))
  {
    if !(s.input[0].Failed? && Stops(s.input[0].status)) {
      EofStaysAhead(s.input);
    }
  }

  lemma {:induction false} QuietTracks(s: State, produced: seq<Timed>, limit: int, isAtEos: bool)
    requires Tracks(s, produced, limit) && !WillJoin(s, limit)
    requires isAtEos ==> EndsInEof(s.input)
    requires s.next.Some? || (s.composed != [] && Closed(s.composed, limit)) || s.input == [] || s.input[0].Failed?
    ensures var a := Next(s, limit, isAtEos);
      Tracks(a.state, produced, limit) && Coming(a.state.input) == Coming(s.input)
  {
  }

  lemma TagTracks(s: State, produced: seq<Timed>, limit: int, isAtEos: bool)
    requires Tracks(s, produced, limit) && !WillJoin(s, limit) && s.next == None
    requires s.input != [] && s.input[0].Got? && (s.composed != [] ==> !Closed(s.composed, limit))
    ensures var a := Next(s, limit, isAtEos);
      Tracks(a.state, produced + [s.input[0].item], limit) && a.state.input == s.input[1..]
  {
    PendingStep(produced, s.input[0].item, limit);
  }

  lemma AnswerTracks(s: State, produced: seq<Timed>, limit: int, isAtEos: bool) returns (produced': seq<Timed>)
    requires Tracks(s, produced, limit) && !WillJoin(s, limit)
    requires isAtEos ==> EndsInEof(s.input)
    ensures var a := Next(s, limit, isAtEos);
      Tracks(a.state, produced', limit) && produced' + Coming(a.state.input) == produced + Coming(s.input)
  {
    if s.next.Some? || (s.composed != [] && Closed(s.composed, limit)) || s.input == [] || s.input[0].Failed? {
      produced' := produced;
      QuietTracks(s, produced, limit, isAtEos);
    } else {
      produced' := produced + [s.input[0].item];
      TagTracks(s, produced, limit, isAtEos);
      ComingStep(produced, s.input);
    }
  }

  /** A call that is not flagged, whatever the reader answers, and a call on the way
      to the reader's Eof leave the batch in the making the open one. */
  lemma {:induction false} NextTracks(s: State, produced: seq<Timed>, limit: int, isAtEos: bool)
      returns (produced': seq<Timed>)
    requires Tracks(s, produced, limit)
    requires isAtEos ==> EndsInEof(s.input)
    ensures TracksOn(s, produced, limit, Next(s, limit, isAtEos), produced')
    decreases |s.input|
  {
    if WillJoin(s, limit) {
      JoinTracks(s, produced, limit);
      if EndsInEof(s.input) {
        EofStaysAhead(s.input);
      }
      NextJoins(s, limit, isAtEos);
      ComingStep(produced, s.input);
      produced' := NextTracks(Joined(s), produced + [s.input[0].item], limit, isAtEos);
    } else {
      produced' := AnswerTracks(s, produced, limit, isAtEos);
      if EndsInEof(s.input) {
        AnswerIsNear(s, limit, isAtEos);
      }
    }
  }

  lemma {:induction false} RunTracks(s: State, produced: seq<Timed>, limit: int, flags: seq<bool>)
      returns (produced': seq<Timed>)
    requires Tracks(s, produced, limit) && true !in flags
    ensures Tracks(After(s, limit, flags), produced', limit)
    ensures produced' + Coming(After(s, limit, flags).input) == produced + Coming(s.input)
    decreases |flags|
  {
    if flags == [] {
      produced' := produced;
    } else {
      assert flags[0] in flags && forall f :: f in flags[1..] ==> f in flags;
      var produced1 := NextTracks(s, produced, limit, false);
      produced' := RunTracks(Next(s, limit, false).state, produced1, limit, flags[1..]);
    }
  }

  lemma {:induction false} DrainTracks(s: State, produced: seq<Timed>, limit: int)
    requires Tracks(s, produced, limit) && EndsInEof(s.input)
    ensures var final, pending := Drain(s, limit), Pending(produced + Coming(s.input), limit);
      && final.input == [] && final.next == None
      && (final.composed == [] <==> pending == [] || Closed(pending, limit))
      && (final.composed != [] ==> final.composed == pending)
    decreases Work(s)
  {
    var produced' := NextTracks(s, produced, limit, true);
    NextWorks(s, limit, true);
    var a := Next(s, limit, true);
    if Stops(a.status) {
      assert produced' + [] == produced';
    } else {
      DrainTracks(a.state, produced', limit);
    }
  }

  /** An Eof that the reader itself reports is passed on at once: the batch that is
      open then is never returned. So a stream that ends in one, read in whatever
      pieces before its end was known, is delivered entirely if and only if its
      tags leave no batch open. */
  lemma OwnEofStrandsOpenBatchIff(input: seq<Read>, limit: int, flags: seq<bool>)
    requires true !in flags && EndsInEof(After(State(None, [], input), limit, flags).input)
    ensures var final := Drain(After(State(None, [], input), limit, flags), limit);
      var pending := Pending(Coming(input), limit);
      && final.input == [] && final.next == None
      && (final.composed == [] <==> pending == [] || Closed(pending, limit))
      && (final.composed != [] ==> final.composed == pending)
  {
    var produced := RunTracks(State(None, [], input), [], limit, flags);
    DrainTracks(After(State(None, [], input), limit, flags), produced, limit);
    assert [] + Coming(input) == Coming(input);
  }

  /** One audio tag and the reader's own Eof: the tag is never returned. */
  lemma OwnEofLosesATag(tag: Tag, limit: int)
    requires tag.isAudio && 0 <= tag.duration <= limit && limit > 0
    ensures var input := [Got(Timed(tag, 0)), Failed(ReadEof)];
      EndsInEof(input) && Drain(State(None, [], input), limit).composed == [Timed(tag, 0)]
  {
    var input := [Got(Timed(tag, 0)), Failed(ReadEof)];
    var s1 := State(None, [Timed(tag, 0)], [Failed(ReadEof)]);
    assert input[1..] == [Failed(ReadEof)];
    assert [Timed(tag, 0)][..0] == [] && Duration([]) == 0;
    assert Next(State(None, [], input), limit, true) == Next(s1, limit, true);
  }
}
