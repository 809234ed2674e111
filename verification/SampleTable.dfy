/** The sample tables of one MOOV track (ISO/IEC 14496-12, sections 8.6 and 8.7)
    and the cursor walk that turns them back into frame headers. */
module SampleTable {
  import opened Media

  /** An STTS or CTTS record: `count` consecutive samples share `value`. */
  datatype Run = Run(count: nat, value: int)

  datatype StscRecord = StscRecord(firstChunk: nat, samplesPerChunk: nat)

  /** The tables as decoded. `stss` is absent on tracks where every frame is
      equivalent, `ctts` when composition and decoding times coincide. */
  datatype Track = Track(
    stsz: seq<nat>,
    stco: seq<nat>,
    stsc: seq<StscRecord>,
    stts: seq<Run>,
    ctts: Option<seq<Run>>,
    stss: Option<seq<nat>>,
    timescale: nat)

  // ----- What the tables mean -----

  /** The k-th element of the expansion of a run-length table, 0 past its end. */
  function RunAt(runs: seq<Run>, k: nat): int {
    if runs == [] then 0
    else if k < runs[0].count then runs[0].value
    else RunAt(runs[1..], k - runs[0].count)
  }

  function RunSum(runs: seq<Run>, n: nat): int {
    if n == 0 then 0 else RunSum(runs, n - 1) + RunAt(runs, n - 1)
  }

  /** Record cursor movement on entering a chunk: the next record takes over
      exactly when it starts there. */
  function StscStep(stsc: seq<StscRecord>, chunk: nat, i: nat): (r: nat)
    requires i < |stsc|
    ensures r < |stsc|
  {
    if i + 1 < |stsc| && stsc[i + 1].firstChunk == chunk then i + 1 else i
  }

  /** The record used for a chunk; chunk 0 stands for the state before the walk. */
  function RecordFor(stsc: seq<StscRecord>, chunk: nat): (r: nat)
    requires stsc != []
    ensures r < |stsc|
  {
    if chunk == 0 then 0 else StscStep(stsc, chunk, RecordFor(stsc, chunk - 1))
  }

  function SamplesIn(stsc: seq<StscRecord>, chunk: nat): nat
    requires stsc != []
  {
    stsc[RecordFor(stsc, chunk)].samplesPerChunk
  }

  /** Number of samples in chunks 1..chunk-1; chunks are numbered from 1. */
  function SamplesBefore(stsc: seq<StscRecord>, chunk: nat): nat
    requires stsc != [] && chunk >= 1
  {
    if chunk == 1 then 0 else SamplesBefore(stsc, chunk - 1) + SamplesIn(stsc, chunk - 1)
  }

  function Min(a: nat, b: nat): nat { if a <= b then a else b }

  function FrameCount(t: Track): nat
    requires t.stsc != []
  {
    Min(|t.stsz|, SamplesBefore(t.stsc, |t.stco| + 1))
  }

  /** The chunk that holds sample k, searching from `chunk` on. */
  function ChunkOf(t: Track, k: nat, chunk: nat): (c: nat)
    requires t.stsc != [] && 1 <= chunk <= |t.stco|
    requires SamplesBefore(t.stsc, chunk) <= k < SamplesBefore(t.stsc, |t.stco| + 1)
    ensures chunk <= c <= |t.stco|
    ensures SamplesBefore(t.stsc, c) <= k < SamplesBefore(t.stsc, c + 1)
    decreases |t.stco| - chunk
  {
    if k < SamplesBefore(t.stsc, chunk + 1) then chunk else ChunkOf(t, k, chunk + 1)
  }

  function OffsetOf(t: Track, k: nat): int
    requires t.stsc != [] && k < FrameCount(t)
  {
    var c := ChunkOf(t, k, 1);
    t.stco[c - 1] + SumUpTo(t.stsz, k) - SumUpTo(t.stsz, SamplesBefore(t.stsc, c))
  }

  function CompositionOffset(t: Track, k: nat): int {
    match t.ctts
    case None => 0
    case Some(runs) => RunAt(runs, k)
  }

  function HeaderWithoutKeyframe(t: Track, audio: bool, k: nat): FrameHeader
    requires t.stsc != [] && k < FrameCount(t) && t.timescale > 0
  {
    var clock := RunSum(t.stts, k);
    FrameHeader(
      OffsetOf(t, k),
      t.stsz[k],
      TruncDiv(clock * 1000, t.timescale),
      TruncDiv(CompositionOffset(t, k) * 1000, t.timescale),
      TruncDiv(RunAt(t.stts, k) * 1000, t.timescale),
      clock + CompositionOffset(t, k),
      if audio then AudioFrame else VideoFrame,
      false)
  }

  predicate IsKeyframe(t: Track, k: nat) {
    t.stss.Some? && (k + 1) in t.stss.value
  }

  function HeaderAt(t: Track, audio: bool, k: nat): FrameHeader
    requires t.stsc != [] && k < FrameCount(t) && t.timescale > 0
  {
    HeaderWithoutKeyframe(t, audio, k).(keyframe := IsKeyframe(t, k))
  }

  // ----- Which tables are accepted -----

  /** The check made on entering `chunk`. */
  predicate StscStepLegal(stsc: seq<StscRecord>, chunk: nat)
    requires stsc != [] && chunk >= 1
  {
    var i := RecordFor(stsc, chunk - 1);
    i + 1 < |stsc| ==>
      && stsc[i].firstChunk <= chunk <= stsc[i + 1].firstChunk
      && stsc[i].firstChunk < stsc[i + 1].firstChunk
  }

  predicate StscWalkLegal(stsc: seq<StscRecord>, chunks: nat)
    requires stsc != []
  {
    forall chunk: nat :: 1 <= chunk <= chunks ==> StscStepLegal(stsc, chunk)
  }

  predicate Accepted(t: Track) {
    && 0 < |t.stsc| <= |t.stco|
    && t.timescale > 0
    && StscWalkLegal(t.stsc, |t.stco|)
  }

  /** The meaning of a track: one header per sample, or nothing when the tables
      are rejected. */
  function Headers(t: Track, audio: bool): seq<FrameHeader> {
    if Accepted(t) then seq(FrameCount(t), k requires 0 <= k < FrameCount(t) => HeaderAt(t, audio, k)) else []
  }

  // ----- The cursor over a run-length table -----

  /** A position in a run-length table: the record `index`, of which `rest` is
      what has not been consumed yet. Initially no record is current. */
  datatype Cursor = Cursor(index: int, rest: Run)

  const START := Cursor(-1, Run(0, 0))

  ghost function Residue(runs: seq<Run>, c: Cursor): seq<Run>
    requires -1 <= c.index < |runs|
  {
    [c.rest] + runs[c.index + 1..]
  }

  ghost predicate AtSample(runs: seq<Run>, c: Cursor, k: nat) {
    && -1 <= c.index < |runs|
    && forall j: nat :: RunAt(Residue(runs, c), j) == RunAt(runs, k + j)
  }

  lemma StartAtSampleZero(runs: seq<Run>)
    ensures AtSample(runs, START, 0)
  {
    assert Residue(runs, START)[1..] == runs;
  }

  /** Takes the next value: moves over exhausted records, then consumes one
      sample of the current one. */
  method NextRun(runs: seq<Run>, c: Cursor, ghost k: nat) returns (c': Cursor, value: int)
    requires AtSample(runs, c, k)
    ensures AtSample(runs, c', k + 1)
    ensures value == RunAt(runs, k)
  {
    c' := c;
    while c'.rest.count == 0 && c'.index < |runs| - 1
      invariant AtSample(runs, c', k)
      decreases |runs| - c'.index
    {
      ghost var before := Residue(runs, c');
      c' := Cursor(c'.index + 1, runs[c'.index + 1]);
      assert before[1..] == Residue(runs, c');
      forall j: nat ensures RunAt(Residue(runs, c'), j) == RunAt(runs, k + j) {
        assert RunAt(before, j) == RunAt(runs, k + j);
      }
    }
    ghost var r := Residue(runs, c');
    assert RunAt(r, 0) == RunAt(runs, k + 0);
    if c'.rest.count > 0 {
      value := c'.rest.value;
      c' := c'.(rest := c'.rest.(count := c'.rest.count - 1));
      assert Residue(runs, c')[1..] == r[1..];
      forall j: nat ensures RunAt(Residue(runs, c'), j) == RunAt(runs, (k + 1) + j) {
        assert RunAt(r, j + 1) == RunAt(runs, k + (j + 1));
      }
    } else {
      value := 0;
      assert r == [c'.rest];
      forall j: nat ensures RunAt(r, j) == 0 {
        assert r[1..] == [];
        assert RunAt(r, j) == RunAt(r[1..], j);
      }
      forall j: nat ensures RunAt(Residue(runs, c'), j) == RunAt(runs, (k + 1) + j) {
        assert RunAt(r, j + 1) == RunAt(runs, k + (j + 1));
      }
    }
  }

  lemma {:induction false} SamplesBeforeMonotone(stsc: seq<StscRecord>, a: nat, b: nat)
    requires stsc != [] && 1 <= a <= b
    ensures SamplesBefore(stsc, a) <= SamplesBefore(stsc, b)
  {
    if a < b {
      SamplesBeforeMonotone(stsc, a, b - 1);
    }
  }

  lemma {:induction false} ChunkOfUnique(t: Track, k: nat, from: nat, c: nat)
    requires t.stsc != [] && 1 <= from <= c <= |t.stco|
    requires SamplesBefore(t.stsc, c) <= k < SamplesBefore(t.stsc, c + 1)
    requires SamplesBefore(t.stsc, from) <= k < SamplesBefore(t.stsc, |t.stco| + 1)
    ensures ChunkOf(t, k, from) == c
    decreases c - from
  {
    if from < c {
      SamplesBeforeMonotone(t.stsc, from + 1, c);
      ChunkOfUnique(t, k, from + 1, c);
    }
  }

  lemma OffsetInChunk(t: Track, chunk: nat, k: nat)
    requires t.stsc != [] && 1 <= chunk <= |t.stco| && k < FrameCount(t)
    requires SamplesBefore(t.stsc, chunk) <= k < SamplesBefore(t.stsc, chunk + 1)
    ensures OffsetOf(t, k) == t.stco[chunk - 1] + SumUpTo(t.stsz, k) - SumUpTo(t.stsz, SamplesBefore(t.stsc, chunk))
  {
    ChunkOfUnique(t, k, 1, chunk);
  }

  // ----- The walk -----

  /** What the walk carries from sample to sample. */
  datatype Walk = Walk(frames: seq<FrameHeader>, decodingTime: int, stts: Cursor, ctts: Cursor)

  /** CTTS runs, none when the atom is missing. */
  function CttsRuns(t: Track): seq<Run> {
    if t.ctts.Some? then t.ctts.value else []
  }

  ghost predicate Built(t: Track, audio: bool, frames: seq<FrameHeader>)
    requires t.stsc != [] && t.timescale > 0
  {
    && |frames| <= FrameCount(t)
    && forall k :: 0 <= k < |frames| ==> frames[k] == HeaderWithoutKeyframe(t, audio, k)
  }

  ghost predicate WalkValid(t: Track, audio: bool, w: Walk)
    requires t.stsc != [] && t.timescale > 0
  {
    && Built(t, audio, w.frames)
    && w.decodingTime == RunSum(t.stts, |w.frames|)
    && AtSample(t.stts, w.stts, |w.frames|)
    && (t.ctts.Some? ==> AtSample(CttsRuns(t), w.ctts, |w.frames|))
  }

  /** Emits the header of the sample at `offset`. */
  method ExtractSample(t: Track, audio: bool, w: Walk, offset: int) returns (w': Walk)
    requires t.stsc != [] && t.timescale > 0
    requires WalkValid(t, audio, w) && |w.frames| < FrameCount(t)
    requires offset == OffsetOf(t, |w.frames|)
    ensures WalkValid(t, audio, w') && |w'.frames| == |w.frames| + 1
  {
    var k := |w.frames|;
    var stts, decodingDelta := NextRun(t.stts, w.stts, k);
    var ctts, compositionOffset := w.ctts, 0;
    if t.ctts.Some? {
      ctts, compositionOffset := NextRun(CttsRuns(t), w.ctts, k);
    }
    var frame := FrameHeader(
      offset, t.stsz[k],
      TruncDiv(w.decodingTime * 1000, t.timescale),
      TruncDiv(compositionOffset * 1000, t.timescale),
      TruncDiv(decodingDelta * 1000, t.timescale),
      w.decodingTime + compositionOffset,
      if audio then AudioFrame else VideoFrame,
      false);
    w' := Walk(w.frames + [frame], w.decodingTime + decodingDelta, stts, ctts);
  }

  /** Emits the headers of one chunk, as long as the sizes last. */
  method ExtractChunk(t: Track, audio: bool, w: Walk, chunk: nat, samples: nat) returns (w': Walk)
    requires t.stsc != [] && t.timescale > 0 && 1 <= chunk <= |t.stco|
    requires samples == SamplesIn(t.stsc, chunk)
    requires WalkValid(t, audio, w) && |w.frames| == Min(|t.stsz|, SamplesBefore(t.stsc, chunk))
    ensures WalkValid(t, audio, w') && |w'.frames| == Min(|t.stsz|, SamplesBefore(t.stsc, chunk + 1))
  {
    w' := w;
    ghost var first := SamplesBefore(t.stsc, chunk);
    SamplesBeforeMonotone(t.stsc, chunk + 1, |t.stco| + 1);
    var offset := t.stco[chunk - 1];
    var chunkSample := 0;
    while chunkSample < samples && |w'.frames| < |t.stsz|
      invariant 0 <= chunkSample <= samples
      invariant WalkValid(t, audio, w')
      invariant |w'.frames| == Min(|t.stsz|, first + chunkSample)
      invariant |w'.frames| == first + chunkSample ==>
        offset == t.stco[chunk - 1] + SumUpTo(t.stsz, |w'.frames|) - SumUpTo(t.stsz, first)
      invariant |w'.frames| < |t.stsz| ==> |w'.frames| == first + chunkSample
    {
      var k := |w'.frames|;
      OffsetInChunk(t, chunk, k);
      w' := ExtractSample(t, audio, w', offset);
      offset := offset + t.stsz[k];
      chunkSample := chunkSample + 1;
    }
    // a chunk cut short means that the sizes ran out
    assert chunkSample < samples ==> |w'.frames| == |t.stsz|;
  }

  /** Entering a chunk by a legal step keeps the walk legal and moves to its record. */
  lemma EnterChunk(stsc: seq<StscRecord>, chunk: nat)
    requires stsc != [] && chunk >= 1 && StscWalkLegal(stsc, chunk - 1)
    ensures var i := RecordFor(stsc, chunk - 1);
      RecordFor(stsc, chunk) == if i + 1 < |stsc| && stsc[i + 1].firstChunk == chunk then i + 1 else i
    ensures StscStepLegal(stsc, chunk) ==> StscWalkLegal(stsc, chunk)
  {
  }

  /** Rebuilds the frame headers of one track with one pass over the chunks,
      keeping a cursor into each table. */
  method ExtractFrames(t: Track, audio: bool) returns (frames: seq<FrameHeader>)
    ensures frames == Headers(t, audio)
  {
    frames := [];
    if |t.stsc| > |t.stco| || t.stsc == [] {
      return;
    }
    if t.timescale == 0 {
      return;
    }
    StartAtSampleZero(t.stts);
    StartAtSampleZero(CttsRuns(t));
    var w := Walk([], 0, START, START);
    var stscIndex := 0;
    var chunkIndex := 1;
    while chunkIndex <= |t.stco|
      invariant 1 <= chunkIndex <= |t.stco| + 1
      invariant stscIndex == RecordFor(t.stsc, chunkIndex - 1)
      invariant StscWalkLegal(t.stsc, chunkIndex - 1)
      invariant WalkValid(t, audio, w) && |w.frames| == Min(|t.stsz|, SamplesBefore(t.stsc, chunkIndex))
    {
      EnterChunk(t.stsc, chunkIndex);
      if stscIndex < |t.stsc| - 1 {
        var current, next := t.stsc[stscIndex], t.stsc[stscIndex + 1];
        if current.firstChunk > chunkIndex || next.firstChunk < chunkIndex || next.firstChunk <= current.firstChunk {
          assert !StscStepLegal(t.stsc, chunkIndex);
          return;
        }
        if next.firstChunk == chunkIndex {
          stscIndex := stscIndex + 1;
        }
      }
      assert stscIndex == RecordFor(t.stsc, chunkIndex);
      w := ExtractChunk(t, audio, w, chunkIndex, t.stsc[stscIndex].samplesPerChunk);
      chunkIndex := chunkIndex + 1;
    }
    frames := w.frames;
    if t.stss.Some? {
      frames := MarkKeyframes(frames, t.stss.value);
    }
    WalkIsMeaning(t, audio, w.frames, frames);
  }

  /** The headers built, their keyframes marked, are what the tables mean. */
  lemma WalkIsMeaning(t: Track, audio: bool, built: seq<FrameHeader>, marked: seq<FrameHeader>)
    requires Accepted(t) && Built(t, audio, built) && |marked| == |built| == FrameCount(t)
    requires forall k :: 0 <= k < |built| ==>
      marked[k] == if IsKeyframe(t, k) then built[k].(keyframe := true) else built[k]
    ensures marked == Headers(t, audio)
  {
  }

  /** Sets the keyframe flag of every sample listed (numbering from 1), ignoring
      numbers outside the track. */
  method MarkKeyframes(frames: seq<FrameHeader>, stss: seq<nat>) returns (marked: seq<FrameHeader>)
    ensures |marked| == |frames|
    ensures forall k :: 0 <= k < |frames| ==>
      marked[k] == if k + 1 in stss then frames[k].(keyframe := true) else frames[k]
  {
    marked := frames;
    for i := 0 to |stss|
      invariant |marked| == |frames|
      invariant forall k :: 0 <= k < |frames| ==>
        marked[k] == if k + 1 in stss[..i] then frames[k].(keyframe := true) else frames[k]
    {
      var keyframe := stss[i];
      assert stss[..i + 1] == stss[..i] + [keyframe];
      if keyframe < 1 || keyframe > |marked| {
        continue;
      }
      marked := marked[keyframe - 1 := marked[keyframe - 1].(keyframe := true)];
    }
    assert stss[..|stss|] == stss;
  }
}
