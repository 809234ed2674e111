/** What a bootstrapper remembers, told from what has happened to it. */
module BootstrapperHistory {
  import opened Media
  import opened Bootstrapper
  import opened BootstrapperFacts

  // ----- The registers -----

  datatype Kind = InfoKind | MetadataKind | CueKind | AvcKind | AacKind | MoovKind

  predicate OfKind(tag: Tag, kind: Kind) {
    match kind
    case InfoKind => tag.MediaInfo?
    case MetadataKind => tag.Flv? && tag.flv.OnMetaData?
    case CueKind => tag.CuePoints?
    case AvcKind => tag.Flv? && tag.flv.AvcHeader?
    case AacKind => tag.Flv? && tag.flv.AacHeader?
    case MoovKind => tag.Flv? && tag.flv.MoovCarrier?
  }

  /** What a register keeps of a tag: of a carrier, the tag inside. */
  function Kept(tag: Tag): Tag {
    if tag.Flv? && tag.flv.MoovCarrier? then Flv(tag.flv.inner) else tag
  }

  function Register(b: Boot, kind: Kind): Option<Tag> {
    match kind
    case InfoKind => b.mediaInfo
    case MetadataKind => b.metadata
    case CueKind => b.cuePoints
    case AvcKind => b.avc
    case AacKind => b.aac
    case MoovKind => b.moov
  }

  /** The end of any source, and a clear, forget the registers. */
  predicate Forgets(op: Op) {
    op.ClearOp? || (op.ProcessOp? && op.tag.SourceEnded?)
  }

  predicate Sets(op: Op, kind: Kind) {
    op.ProcessOp? && OfKind(op.tag, kind)
  }

  /** Operation i set the register last, and nothing has forgotten it since. */
  ghost predicate SetLast(ops: seq<Op>, kind: Kind, i: nat) {
    && i < |ops| && Sets(ops[i], kind)
    && forall j :: i < j < |ops| ==> !Forgets(ops[j]) && !Sets(ops[j], kind)
  }

  lemma RegisterStep(b: Boot, op: Op, kind: Kind)
    ensures Register(Apply(b, op), kind) ==
      if Sets(op, kind) then Some(Kept(op.tag)) else if Forgets(op) then None else Register(b, kind)
  {
  }

  lemma SetLastStep(ops: seq<Op>, kind: Kind, i: nat)
    requires ops != []
    ensures var n := |ops| - 1;
      SetLast(ops, kind, i) <==>
        if i == n then Sets(ops[n], kind)
        else SetLast(ops[..n], kind, i) && !Forgets(ops[n]) && !Sets(ops[n], kind)
  {
  }

  lemma {:induction false} RegisterIs(keepMedia: bool, ops: seq<Op>, kind: Kind, tag: Tag)
    ensures Register(After(Empty(keepMedia), ops), kind) == Some(tag) <==>
      exists i: nat :: SetLast(ops, kind, i) && Kept(ops[i].tag) == tag
  {
    if ops != [] {
      var n := |ops| - 1;
      var before := ops[..n];
      RegisterIs(keepMedia, before, kind, tag);
      RegisterStep(After(Empty(keepMedia), before), ops[n], kind);
      SetLastStep(ops, kind, n);
      if i: nat :| SetLast(before, kind, i) && Kept(before[i].tag) == tag {
        SetLastStep(ops, kind, i);
      }
      if i: nat :| SetLast(ops, kind, i) && Kept(ops[i].tag) == tag {
        SetLastStep(ops, kind, i);
      }
    }
  }

  /** In every run: a register holds the last tag of its kind, unless a source has ended
      or the bootstrapper was cleared since; then, and before the first, nothing. */
  lemma EveryRegisterIsLast(keepMedia: bool, ops: seq<Op>, kind: Kind)
    ensures var register := Register(After(Empty(keepMedia), ops), kind);
      && (register == None <==> forall i: nat :: !SetLast(ops, kind, i))
      && (register.Some? ==> exists i: nat :: SetLast(ops, kind, i) && Kept(ops[i].tag) == register.value)
  {
    var register := Register(After(Empty(keepMedia), ops), kind);
    if register.Some? {
      RegisterIs(keepMedia, ops, kind, register.value);
    }
    if i: nat :| SetLast(ops, kind, i) {
      RegisterIs(keepMedia, ops, kind, Kept(ops[i].tag));
    }
  }

  // ----- The media list -----

  /** Whether media are kept after some operations: as was said last. */
  ghost predicate Keeping(keepMedia: bool, ops: seq<Op>) {
    if exists i: nat :: SaidLast(ops, i) then exists i: nat :: SaidLast(ops, i) && ops[i].keep else keepMedia
  }

  ghost predicate SaidLast(ops: seq<Op>, i: nat) {
    i < |ops| && ops[i].KeepMediaOp? && forall j :: i < j < |ops| ==> !ops[j].KeepMediaOp?
  }

  lemma {:induction false} KeepingIs(keepMedia: bool, ops: seq<Op>)
    ensures After(Empty(keepMedia), ops).keepMedia == Keeping(keepMedia, ops)
  {
    if ops != [] {
      var n := |ops| - 1;
      KeepingIs(keepMedia, ops[..n]);
      forall i: nat ensures SaidLast(ops, i) <==>
        if i == n then ops[n].KeepMediaOp? else SaidLast(ops[..n], i) && !ops[n].KeepMediaOp? {
      }
      assert SaidLast(ops, n) <==> ops[n].KeepMediaOp?;
    }
  }

  predicate IsVideoKeyframe(tag: Tag) {
    || (tag.Flv? && tag.flv.OtherFlv? && tag.flv.isVideo && tag.flv.canResync)
    || (tag.Other? && tag.isVideo && tag.canResync)
  }

  /** The end of any source, clearing the media, and turning media off empty the list. */
  predicate Empties(op: Op) {
    (op.ProcessOp? && op.tag.SourceEnded?) || op.ClearMediaOp? || (op.KeepMediaOp? && !op.keep)
  }

  predicate IsKey(op: Op) {
    op.ProcessOp? && IsVideoKeyframe(op.tag)
  }

  /** Operation k is the last keyframe that was kept, and its list was not emptied since. */
  ghost predicate ListStart(keepMedia: bool, ops: seq<Op>, k: nat) {
    && k < |ops| && IsKey(ops[k]) && Keeping(keepMedia, ops[..k])
    && forall j :: k < j < |ops| ==> !IsKey(ops[j]) && !Empties(ops[j])
  }

  /** The plain tags among some operations, in order. */
  function PlainTags(ops: seq<Op>): seq<Tag> {
    if ops == [] then []
    else
      var last := ops[|ops| - 1];
      PlainTags(ops[..|ops| - 1]) + if last.ProcessOp? && IsPlain(last.tag) then [last.tag] else []
  }

  lemma MediaStep(b: Boot, op: Op)
    ensures Apply(b, op).media ==
      if Empties(op) then []
      else if IsKey(op) && b.keepMedia then [op.tag]
      else if op.ProcessOp? && IsPlain(op.tag) && b.keepMedia && b.media != [] then b.media + [op.tag]
      else b.media
  {
  }

  lemma ListStartStep(keepMedia: bool, ops: seq<Op>, k: nat)
    requires ops != []
    ensures var n := |ops| - 1;
      ListStart(keepMedia, ops, k) <==>
        if k == n then IsKey(ops[n]) && Keeping(keepMedia, ops[..n])
        else ListStart(keepMedia, ops[..n], k) && !IsKey(ops[n]) && !Empties(ops[n])
  {
    if k < |ops| - 1 {
      assert ops[..|ops| - 1][..k] == ops[..k];
    }
  }

  lemma PlainStep(ops: seq<Op>, k: nat)
    requires k < |ops|
    ensures PlainTags(ops[k..]) ==
      PlainTags(ops[k..|ops| - 1]) +
      if ops[|ops| - 1].ProcessOp? && IsPlain(ops[|ops| - 1].tag) then [ops[|ops| - 1].tag] else []
  {
    assert ops[k..][..|ops[k..]| - 1] == ops[k..|ops| - 1];
  }

  /** The list, in a run. */
  ghost predicate ListIs(keepMedia: bool, ops: seq<Op>, media: seq<Tag>) {
    && (media == [] <==> forall k: nat :: !ListStart(keepMedia, ops, k))
    && (forall k: nat :: ListStart(keepMedia, ops, k) ==> media == PlainTags(ops[k..]))
  }

  lemma ListEmptied(keepMedia: bool, ops: seq<Op>)
    requires ops != [] && Empties(ops[|ops| - 1])
    ensures ListIs(keepMedia, ops, [])
  {
    forall k: nat ensures !ListStart(keepMedia, ops, k) {
      ListStartStep(keepMedia, ops, k);
    }
  }

  lemma ListStarted(keepMedia: bool, ops: seq<Op>)
    requires ops != [] && IsKey(ops[|ops| - 1]) && Keeping(keepMedia, ops[..|ops| - 1])
    ensures ListIs(keepMedia, ops, [ops[|ops| - 1].tag])
  {
    var n := |ops| - 1;
    forall k: nat ensures ListStart(keepMedia, ops, k) <==> k == n {
      ListStartStep(keepMedia, ops, k);
    }
    assert ListStart(keepMedia, ops, n);
    PlainStep(ops, n);
    assert ops[n..n] == [] && PlainTags([]) == [];
  }

  lemma ListGoesOn(keepMedia: bool, ops: seq<Op>, media: seq<Tag>)
    requires ops != [] && ListIs(keepMedia, ops[..|ops| - 1], media)
    requires !IsKey(ops[|ops| - 1]) && !Empties(ops[|ops| - 1])
    ensures var last := ops[|ops| - 1];
      ListIs(keepMedia, ops, if media != [] && last.ProcessOp? && IsPlain(last.tag) then media + [last.tag] else media)
  {
    var n := |ops| - 1;
    forall k: nat ensures ListStart(keepMedia, ops, k) <==> ListStart(keepMedia, ops[..n], k) {
      ListStartStep(keepMedia, ops, k);
    }
    forall k: nat | ListStart(keepMedia, ops, k) ensures k < n && PlainTags(ops[k..n]) == media {
      assert ops[..n][k..] == ops[k..n];
    }
    forall k: nat | ListStart(keepMedia, ops, k)
      ensures PlainTags(ops[k..]) ==
        media + if ops[n].ProcessOp? && IsPlain(ops[n].tag) then [ops[n].tag] else []
    {
      PlainStep(ops, k);
    }
  }

  lemma KeyNotKept(keepMedia: bool, ops: seq<Op>)
    requires ops != [] && IsKey(ops[|ops| - 1]) && !Keeping(keepMedia, ops[..|ops| - 1])
    ensures ListIs(keepMedia, ops, [])
  {
    forall k: nat ensures !ListStart(keepMedia, ops, k) {
      ListStartStep(keepMedia, ops, k);
    }
  }

  /** One more operation, on a state whose list is right. */
  lemma ListNext(keepMedia: bool, ops: seq<Op>, b: Boot)
    requires ops != [] && ListIs(keepMedia, ops[..|ops| - 1], b.media)
    requires b.keepMedia == Keeping(keepMedia, ops[..|ops| - 1]) && (b.media != [] ==> b.keepMedia)
    ensures ListIs(keepMedia, ops, Apply(b, ops[|ops| - 1]).media)
  {
    var n := |ops| - 1;
    MediaStep(b, ops[n]);
    if Empties(ops[n]) {
      ListEmptied(keepMedia, ops);
    } else if !IsKey(ops[n]) {
      ListGoesOn(keepMedia, ops, b.media);
    } else if b.keepMedia {
      ListStarted(keepMedia, ops);
    } else {
      KeyNotKept(keepMedia, ops);
    }
  }

  /** A list is kept only while media are. */
  lemma {:induction false} KeptWhileKeeping(keepMedia: bool, ops: seq<Op>)
    ensures var b := After(Empty(keepMedia), ops); b.media != [] ==> b.keepMedia
  {
    if ops != [] {
      KeptWhileKeeping(keepMedia, ops[..|ops| - 1]);
    }
  }

  lemma NoListYet(keepMedia: bool)
    ensures ListIs(keepMedia, [], [])
  {
  }

  lemma {:induction false} ListFollows(keepMedia: bool, ops: seq<Op>)
    ensures ListIs(keepMedia, ops, After(Empty(keepMedia), ops).media)
  {
    if ops == [] {
      NoListYet(keepMedia);
    } else {
      var before := ops[..|ops| - 1];
      ListFollows(keepMedia, before);
      KeepingIs(keepMedia, before);
      KeptWhileKeeping(keepMedia, before);
      ListNext(keepMedia, ops, After(Empty(keepMedia), before));
    }
  }

  /** In every run: the media list is the plain tags from the last video keyframe on that
      was kept, unless a source has ended, the list was cleared or media turned off since;
      then, and before the first such keyframe, it is empty. */
  lemma EveryListFollowsKeyframe(keepMedia: bool, ops: seq<Op>)
    ensures var media := After(Empty(keepMedia), ops).media;
      && (media == [] <==> forall k: nat :: !ListStart(keepMedia, ops, k))
      && (forall k: nat :: ListStart(keepMedia, ops, k) ==> media == PlainTags(ops[k..]))
  {
    ListFollows(keepMedia, ops);
  }

  // ----- The open sources -----

  predicate IsStart(op: Op) {
    op.ProcessOp? && op.tag.SourceStarted?
  }

  predicate IsEnd(op: Op) {
    op.ProcessOp? && op.tag.SourceEnded?
  }

  /** Sources started less sources ended from operation a to operation b. */
  function Net(ops: seq<Op>, a: nat, b: nat): int
    requires a <= b <= |ops|
  {
    if a == b then 0
    else Net(ops, a, b - 1) + if IsStart(ops[b - 1]) then 1 else if IsEnd(ops[b - 1]) then -1 else 0
  }

  /** Operation i started a source, and nothing since has ended it: no clear, and at no
      point more ends than starts. */
  ghost predicate Unmatched(ops: seq<Op>, i: nat) {
    && i < |ops| && IsStart(ops[i])
    && (forall j :: i < j < |ops| ==> !ops[j].ClearOp?)
    && (forall j :: i < j <= |ops| ==> NoMoreEnds(ops, i, j))
  }

  /** Behind operation i and before j sources end at most as often as they start. */
  predicate NoMoreEnds(ops: seq<Op>, i: nat, j: nat)
    requires i < j <= |ops|
  {
    Net(ops, i + 1, j) >= 0
  }

  /** The positions of the starts of the open sources. */
  function Stack(ops: seq<Op>): seq<nat> {
    if ops == [] then []
    else
      var n := |ops| - 1;
      var before := Stack(ops[..n]);
      if ops[n].ClearOp? then []
      else if IsStart(ops[n]) then before + [n]
      else if IsEnd(ops[n]) && before != [] then before[..|before| - 1]
      else before
  }

  ghost predicate StackIs(ops: seq<Op>, p: seq<nat>, sources: seq<Tag>) {
    && |p| == |sources|
    && forall k :: 0 <= k < |p| ==> p[k] < |ops| && IsStart(ops[p[k]]) && sources[k] == ops[p[k]].tag
  }

  lemma {:induction false} StackTags(keepMedia: bool, ops: seq<Op>)
    ensures StackIs(ops, Stack(ops), After(Empty(keepMedia), ops).sources)
  {
    if ops != [] {
      StackTags(keepMedia, ops[..|ops| - 1]);
    }
  }

  /** In order, and above each as many more starts than ends as there are sources. */
  ghost predicate StackHeights(ops: seq<Op>, p: seq<nat>) {
    && (forall k, l :: 0 <= k < l < |p| ==> p[k] < p[l])
    && (forall k :: 0 <= k < |p| ==> p[k] < |ops| && Net(ops, p[k] + 1, |ops|) == |p| - 1 - k)
  }

  lemma {:induction false} NetOfPrefix(ops: seq<Op>, n: nat, a: nat, b: nat)
    requires a <= b <= n <= |ops|
    ensures Net(ops[..n], a, b) == Net(ops, a, b)
  {
    if a < b {
      NetOfPrefix(ops, n, a, b - 1);
    }
  }

  lemma {:induction false} HeightsHold(ops: seq<Op>)
    ensures StackHeights(ops, Stack(ops))
  {
    if ops != [] {
      var n := |ops| - 1;
      var p := Stack(ops[..n]);
      HeightsHold(ops[..n]);
      forall k | 0 <= k < |p| ensures Net(ops, p[k] + 1, n) == |p| - 1 - k {
        NetOfPrefix(ops, n, p[k] + 1, n);
      }
    }
  }

  lemma UnmatchedStep(ops: seq<Op>, i: nat)
    requires ops != []
    ensures var n := |ops| - 1;
      Unmatched(ops, i) <==>
        if i == n then IsStart(ops[n])
        else Unmatched(ops[..n], i) && !ops[n].ClearOp? && (i < n ==> NoMoreEnds(ops, i, n + 1))
  {
    var n := |ops| - 1;
    if i < n {
      forall j | i < j <= n ensures NoMoreEnds(ops[..n], i, j) <==> NoMoreEnds(ops, i, j) {
        NetOfPrefix(ops, n, i + 1, j);
      }
    }
  }

  lemma {:induction false} StackIsUnmatched(ops: seq<Op>, i: nat)
    ensures i in Stack(ops) <==> Unmatched(ops, i)
  {
    if ops != [] {
      var n := |ops| - 1;
      StackIsUnmatched(ops[..n], i);
      HeightsHold(ops[..n]);
      UnmatchedStep(ops, i);
      var p := Stack(ops[..n]);
      if i in p {
        var k :| 0 <= k < |p| && p[k] == i;
        NetOfPrefix(ops, n, i + 1, n);
        assert k < |p| - 1 ==> i == p[..|p| - 1][k];
      }
    }
  }

  /** In every run: the open sources are the starts that no end and no clear has matched,
      in order. */
  lemma EverySourceIsUnmatched(keepMedia: bool, ops: seq<Op>) returns (p: seq<nat>)
    ensures StackIs(ops, p, After(Empty(keepMedia), ops).sources)
    ensures forall k, l :: 0 <= k < l < |p| ==> p[k] < p[l]
    ensures forall i: nat :: i in p <==> Unmatched(ops, i)
  {
    p := Stack(ops);
    StackTags(keepMedia, ops);
    HeightsHold(ops);
    forall i: nat ensures i in p <==> Unmatched(ops, i) {
      StackIsUnmatched(ops, i);
    }
  }
}
