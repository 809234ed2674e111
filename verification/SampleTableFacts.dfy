/** What the sample-table walk is for: the tables denote the frame layout and
    timing that ISO/IEC 14496-12 gives them. */
module SampleTableFacts {
  import opened Media
  import opened SampleTable

  // ----- STSC -----

  ghost predicate StrictlyIncreasing(stsc: seq<StscRecord>) {
    forall i :: 0 <= i < |stsc| - 1 ==> stsc[i].firstChunk < stsc[i + 1].firstChunk
  }

  /** A table as the standard prescribes it. */
  ghost predicate WellFormed(stsc: seq<StscRecord>) {
    stsc != [] && stsc[0].firstChunk == 1 && StrictlyIncreasing(stsc)
  }

  lemma {:induction false} IncreasingPairs(stsc: seq<StscRecord>, i: nat, j: nat)
    requires StrictlyIncreasing(stsc) && i < j < |stsc|
    ensures stsc[i].firstChunk < stsc[j].firstChunk
  {
    if i + 1 < j {
      IncreasingPairs(stsc, i, j - 1);
    }
    assert stsc[j - 1].firstChunk < stsc[j - 1 + 1].firstChunk;
  }

  /** The record used for a chunk is the last one that starts at or before it. */
  lemma {:induction false} RecordForIsLastStarted(stsc: seq<StscRecord>, chunk: nat)
    requires WellFormed(stsc) && chunk >= 1
    ensures stsc[RecordFor(stsc, chunk)].firstChunk <= chunk
    ensures forall r :: 0 <= r < |stsc| ==> (stsc[r].firstChunk <= chunk <==> r <= RecordFor(stsc, chunk))
  {
    if chunk > 1 {
      RecordForIsLastStarted(stsc, chunk - 1);
    }
    var i := RecordFor(stsc, chunk);
    if i + 1 < |stsc| {
      assert chunk < stsc[i + 1].firstChunk;
    }
    forall r | 0 <= r < |stsc| && r != i ensures stsc[r].firstChunk <= chunk <==> r < i {
      if r < i {
        IncreasingPairs(stsc, r, i);
      } else if i + 1 < r {
        IncreasingPairs(stsc, i + 1, r);
      }
    }
  }

  /** Record i becomes current before the last chunk is entered. */
  ghost predicate Reached(stsc: seq<StscRecord>, chunks: nat, i: nat)
    requires i < |stsc|
  {
    forall k :: 0 < k <= i ==> stsc[k].firstChunk < chunks
  }

  ghost predicate LegalAsFarAsReached(stsc: seq<StscRecord>, chunks: nat) {
    |stsc| <= 1 ||
    (&& stsc[0].firstChunk <= 1
     && forall i: nat :: i + 1 < |stsc| && Reached(stsc, chunks, i) ==> GrowsAt(stsc, i))
  }

  /** Record i + 1 starts at a later chunk than record i. */
  predicate GrowsAt(stsc: seq<StscRecord>, i: nat)
    requires i + 1 < |stsc|
  {
    stsc[i].firstChunk < stsc[i + 1].firstChunk
  }

  /** Where the cursor stands when `chunk` is about to be entered. */
  ghost predicate CursorPlace(stsc: seq<StscRecord>, chunks: nat, chunk: nat)
    requires stsc != [] && chunk >= 1
  {
    var i := RecordFor(stsc, chunk - 1);
    && Reached(stsc, chunk, i)
    && (i > 0 ==> stsc[i].firstChunk < chunk)
    && (i + 1 < |stsc| && chunk <= chunks ==> chunk <= stsc[i + 1].firstChunk)
  }

  lemma ReachedLater(stsc: seq<StscRecord>, chunk: nat, chunks: nat, i: nat)
    requires i < |stsc| && chunk <= chunks && Reached(stsc, chunk, i)
    ensures Reached(stsc, chunks, i)
  {
  }

  /** A cursor in its place makes a legal step. */
  lemma PlaceIsLegal(stsc: seq<StscRecord>, chunks: nat, chunk: nat)
    requires stsc != [] && LegalAsFarAsReached(stsc, chunks) && 1 <= chunk <= chunks
    requires CursorPlace(stsc, chunks, chunk)
    ensures StscStepLegal(stsc, chunk)
  {
    ReachedLater(stsc, chunk, chunks, RecordFor(stsc, chunk - 1));
  }

  /** And that step takes it to the next place. */
  lemma PlaceStep(stsc: seq<StscRecord>, chunks: nat, chunk: nat)
    requires stsc != [] && LegalAsFarAsReached(stsc, chunks) && 1 <= chunk <= chunks
    requires CursorPlace(stsc, chunks, chunk) && StscStepLegal(stsc, chunk)
    ensures CursorPlace(stsc, chunks, chunk + 1)
  {
    var i, i' := RecordFor(stsc, chunk - 1), RecordFor(stsc, chunk);
    assert i' == StscStep(stsc, chunk, i);
    assert Reached(stsc, chunk + 1, i');
    if i' + 1 < |stsc| && chunk < chunks {
      ReachedLater(stsc, chunk + 1, chunks, i');
    }
  }

  lemma {:induction false} LegalCursor(stsc: seq<StscRecord>, chunks: nat, chunk: nat)
    requires stsc != [] && LegalAsFarAsReached(stsc, chunks) && 1 <= chunk <= chunks + 1
    ensures CursorPlace(stsc, chunks, chunk)
    ensures chunk <= chunks ==> StscStepLegal(stsc, chunk)
  {
    if chunk == 1 {
      FirstPlace(stsc, chunks);
    } else {
      LegalCursor(stsc, chunks, chunk - 1);
      PlaceStep(stsc, chunks, chunk - 1);
    }
    if chunk <= chunks {
      PlaceIsLegal(stsc, chunks, chunk);
    }
  }

  lemma FirstPlace(stsc: seq<StscRecord>, chunks: nat)
    requires stsc != [] && LegalAsFarAsReached(stsc, chunks)
    ensures CursorPlace(stsc, chunks, 1)
  {
    if |stsc| > 1 && chunks >= 1 {
      assert Reached(stsc, chunks, 0);
    }
  }

  lemma {:induction false} IllegalIsMet(stsc: seq<StscRecord>, chunks: nat, i: nat)
    requires i + 1 < |stsc| && chunks >= 1 && StscWalkLegal(stsc, chunks)
    requires Reached(stsc, chunks, i)
    ensures i > 0 ==> 1 <= stsc[i].firstChunk
    ensures RecordFor(stsc, if i == 0 then 0 else stsc[i].firstChunk) == i
    ensures stsc[i].firstChunk < stsc[i + 1].firstChunk
  {
    if i == 0 {
      assert StscStepLegal(stsc, 1);
    } else {
      assert Reached(stsc, chunks, i - 1);
      IllegalIsMet(stsc, chunks, i - 1);
      var from := if i == 1 then 0 else stsc[i - 1].firstChunk;
      CursorStays(stsc, i - 1, from, stsc[i].firstChunk - 1);
      assert StscStepLegal(stsc, stsc[i].firstChunk + 1);
    }
  }

  lemma {:induction false} CursorStays(stsc: seq<StscRecord>, i: nat, from: nat, chunk: nat)
    requires i + 1 < |stsc| && RecordFor(stsc, from) == i && from <= chunk < stsc[i + 1].firstChunk
    ensures RecordFor(stsc, chunk) == i
  {
    if from < chunk {
      CursorStays(stsc, i, from, chunk - 1);
    }
  }

  /** Exactly which STSC tables the walk over `chunks` chunks accepts. */
  lemma AcceptedIff(stsc: seq<StscRecord>, chunks: nat)
    requires stsc != [] && chunks >= 1
    ensures StscWalkLegal(stsc, chunks) <==> LegalAsFarAsReached(stsc, chunks)
  {
    if LegalAsFarAsReached(stsc, chunks) {
      forall chunk: nat | 1 <= chunk <= chunks ensures StscStepLegal(stsc, chunk) {
        LegalCursor(stsc, chunks, chunk);
      }
    }
    if StscWalkLegal(stsc, chunks) && |stsc| > 1 {
      assert StscStepLegal(stsc, 1);
      forall i: nat | i + 1 < |stsc| && Reached(stsc, chunks, i) ensures GrowsAt(stsc, i) {
        IllegalIsMet(stsc, chunks, i);
      }
    }
  }

  lemma WellFormedAccepted(stsc: seq<StscRecord>, chunks: nat)
    requires WellFormed(stsc) && chunks >= 1
    ensures StscWalkLegal(stsc, chunks)
  {
    AcceptedIff(stsc, chunks);
  }

  // ----- STCO and STSZ -----

  lemma HeadersAt(t: Track, audio: bool, k: nat)
    requires Accepted(t) && k < FrameCount(t)
    ensures |Headers(t, audio)| == FrameCount(t) && Headers(t, audio)[k] == HeaderAt(t, audio, k)
  {
  }

  /** Chunk starts are where STCO says, and inside a chunk each frame begins
      where the one before it ends. */
  lemma OffsetsInChunk(t: Track, chunk: nat, k: nat)
    requires t.stsc != [] && 1 <= chunk <= |t.stco| && k < FrameCount(t)
    requires SamplesBefore(t.stsc, chunk) <= k < SamplesBefore(t.stsc, chunk + 1)
    ensures k == SamplesBefore(t.stsc, chunk) ==> OffsetOf(t, k) == t.stco[chunk - 1]
    ensures k > SamplesBefore(t.stsc, chunk) ==> OffsetOf(t, k) == OffsetOf(t, k - 1) + t.stsz[k - 1]
  {
    OffsetInChunk(t, chunk, k);
    if k > SamplesBefore(t.stsc, chunk) {
      OffsetInChunk(t, chunk, k - 1);
    }
  }

  // ----- STTS and CTTS -----

  function Repeat(value: int, count: nat): seq<int> {
    seq(count, _ => value)
  }

  /** The run-length expansion, written out. */
  function Expand(runs: seq<Run>): seq<int> {
    if runs == [] then [] else Repeat(runs[0].value, runs[0].count) + Expand(runs[1..])
  }

  lemma {:induction false} RunAtIsExpansion(runs: seq<Run>, k: nat)
    ensures RunAt(runs, k) == if k < |Expand(runs)| then Expand(runs)[k] else 0
  {
    if runs != [] && k >= runs[0].count {
      RunAtIsExpansion(runs[1..], k - runs[0].count);
    }
  }

  // ----- What a header says -----

  /** Entry k of a table written out; behind its end all entries are 0. */
  function EntryAt(entries: seq<int>, k: nat): int {
    if k < |entries| then entries[k] else 0
  }

  function EntrySum(entries: seq<int>, k: nat): int {
    if k == 0 then 0 else EntrySum(entries, k - 1) + EntryAt(entries, k - 1)
  }

  lemma {:induction false} RunSumIsEntrySum(runs: seq<Run>, k: nat)
    ensures RunSum(runs, k) == EntrySum(Expand(runs), k)
  {
    if k > 0 {
      RunSumIsEntrySum(runs, k - 1);
      RunAtIsExpansion(runs, k - 1);
    }
  }

  /** q is n / d, rounded toward zero. */
  predicate IsQuotient(q: int, n: int, d: nat) {
    if n >= 0 then q * d <= n < (q + 1) * d else (q - 1) * d < n <= q * d
  }

  lemma QuotientOf(n: int, d: nat)
    requires d > 0
    ensures IsQuotient(TruncDiv(n, d), n, d)
  {
    var m: nat := if n >= 0 then n else -n;
    var q := m / d;
    assert m == q * d + m % d;
    Distribute(q, 1, d);
    if n < 0 {
      assert (-q) * d == -(q * d);
      Distribute(-q, 1, d);
    }
  }

  /** The composition offset that the tables give to sample k. */
  function OffsetEntry(t: Track, k: nat): int {
    if t.ctts.Some? then EntryAt(Expand(t.ctts.value), k) else 0
  }

  /** Every field of header k but its offset, from the tables written out: its times
      are in milliseconds, each rounded toward zero once; its sample index stays in
      clock ticks. */
  lemma HeaderMeans(t: Track, audio: bool, k: nat)
    requires Accepted(t) && k < |Headers(t, audio)|
    ensures k < |t.stsz|
    ensures var h, deltas, e := Headers(t, audio)[k], Expand(t.stts), OffsetEntry(t, k);
      && h.size == t.stsz[k]
      && h.frameType == (if audio then AudioFrame else VideoFrame)
      && (h.keyframe <==> t.stss.Some? && k + 1 in t.stss.value)
      && IsQuotient(h.decodingTimestamp, EntrySum(deltas, k) * 1000, t.timescale)
      && IsQuotient(h.duration, EntryAt(deltas, k) * 1000, t.timescale)
      && IsQuotient(h.compositionOffsetMs, e * 1000, t.timescale)
      && h.sampleIndex == EntrySum(deltas, k) + e
  {
    HeadersAt(t, audio, k);
    RunSumIsEntrySum(t.stts, k);
    RunAtIsExpansion(t.stts, k);
    if t.ctts.Some? {
      RunAtIsExpansion(t.ctts.value, k);
    }
    QuotientOf(EntrySum(Expand(t.stts), k) * 1000, t.timescale);
    QuotientOf(EntryAt(Expand(t.stts), k) * 1000, t.timescale);
    QuotientOf(OffsetEntry(t, k) * 1000, t.timescale);
  }

  /** Where the frames lie: at the start of their chunk, plus the sizes of the samples
      of that chunk that stand before them. */
  lemma HeaderPlace(t: Track, audio: bool, chunk: nat, k: nat)
    requires Accepted(t) && 1 <= chunk <= |t.stco| && k < |Headers(t, audio)|
    requires SamplesBefore(t.stsc, chunk) <= k < SamplesBefore(t.stsc, chunk + 1)
    ensures k < |t.stsz|
    ensures Headers(t, audio)[k].offset == t.stco[chunk - 1] + Sum(t.stsz[SamplesBefore(t.stsc, chunk)..k])
  {
    HeadersAt(t, audio, k);
    OffsetInChunk(t, chunk, k);
    SumOfSlice(t.stsz, SamplesBefore(t.stsc, chunk), k);
  }

  lemma {:induction false} SumOfSlice(s: seq<nat>, a: nat, b: nat)
    requires a <= b <= |s|
    ensures Sum(s[a..b]) == SumUpTo(s, b) - SumUpTo(s, a)
  {
    if a < b {
      SumOfSlice(s, a, b - 1);
      assert s[a..b] == s[a..b - 1] + [s[b - 1]];
      SumAppend(s[a..b - 1], s[b - 1]);
    }
  }

  /** There is a header for every size, as far as the chunks have samples. */
  lemma HeaderCount(t: Track, audio: bool)
    requires Accepted(t)
    ensures var samples := SamplesBefore(t.stsc, |t.stco| + 1);
      |Headers(t, audio)| == if |t.stsz| < samples then |t.stsz| else samples
  {
  }

  /** A composition offset of 3003 ticks of a 90000 Hz clock is 33 milliseconds. */
  lemma OffsetInMilliseconds()
    ensures var t := Track([1, 1], [0], [StscRecord(1, 2)], [Run(2, 3003)], Some([Run(2, 3003)]), None, 90000);
      Accepted(t) && |Headers(t, false)| == 2 && Headers(t, false)[0].compositionOffsetMs == 33
  {
    var t := Track([1, 1], [0], [StscRecord(1, 2)], [Run(2, 3003)], Some([Run(2, 3003)]), None, 90000);
    assert SamplesBefore(t.stsc, 1) == 0 && RecordFor(t.stsc, 0) == RecordFor(t.stsc, 1) == 0;
    HeadersAt(t, false, 0);
  }

  // ----- Timestamps -----

  ghost predicate UnsignedRuns(runs: seq<Run>) {
    forall i :: 0 <= i < |runs| ==> runs[i].value >= 0
  }

  lemma {:induction false} RunAtUnsigned(runs: seq<Run>, k: nat)
    requires UnsignedRuns(runs)
    ensures RunAt(runs, k) >= 0
  {
    if runs != [] && k >= runs[0].count {
      RunAtUnsigned(runs[1..], k - runs[0].count);
    }
  }

  lemma {:induction false} RunSumUnsigned(runs: seq<Run>, k: nat)
    requires UnsignedRuns(runs)
    ensures RunSum(runs, k) >= 0
  {
    if k > 0 {
      RunSumUnsigned(runs, k - 1);
      RunAtUnsigned(runs, k - 1);
    }
  }

  /** Milliseconds of a clock value, rounded down. */
  function Millis(clock: int, timescale: nat): int
    requires timescale > 0
  {
    clock * 1000 / timescale
  }

  /** Sum of the rounded durations of the first k samples. */
  function MillisSum(runs: seq<Run>, timescale: nat, k: nat): int
    requires timescale > 0
  {
    if k == 0 then 0 else MillisSum(runs, timescale, k - 1) + Millis(RunAt(runs, k - 1), timescale)
  }

  lemma AtLeastOnce(a: nat, d: nat)
    requires a >= 1
    ensures a * d >= d
  {
  }

  lemma Distribute(p: int, q: int, d: int)
    ensures (p - q) * d == p * d - q * d && (p + q) * d == p * d + q * d
  {
  }

  lemma DivUnique(n: nat, q: nat, r: nat, d: nat)
    requires d > 0 && n == q * d + r && r < d
    ensures n / d == q
  {
    var p := n / d;
    Distribute(p, q, d);
    Distribute(q, p, d);
    if p > q {
      AtLeastOnce(p - q, d);
    } else if p < q {
      AtLeastOnce(q - p, d);
    }
  }

  lemma FloorOfSumParts(qa: nat, ra: nat, qb: nat, rb: nat, d: nat)
    requires ra < d && rb < d
    ensures qa + qb <= (qa * d + ra + (qb * d + rb)) / d <= qa + qb + 1
  {
    Distribute(qa, qb, d);
    Distribute(qa + qb, 1, d);
    var n := qa * d + ra + (qb * d + rb);
    if ra + rb < d {
      DivUnique(n, qa + qb, ra + rb, d);
    } else {
      DivUnique(n, qa + qb + 1, ra + rb - d, d);
    }
  }

  lemma SplitByDivision(n: nat, d: nat)
    requires d > 0
    ensures n == n / d * d + n % d && n % d < d
  {
  }

  lemma FloorOfSum(a: nat, b: nat, d: nat)
    requires d > 0
    ensures a / d + b / d <= (a + b) / d <= a / d + b / d + 1
  {
    SplitByDivision(a, d);
    SplitByDivision(b, d);
    FloorOfSumParts(a / d, a % d, b / d, b % d, d);
  }

  lemma RoundingStep(a: nat, b: nat, d: nat)
    requires d > 0
    ensures a / d <= (a + b) / d
    ensures a / d + b / d <= (a + b) / d <= a / d + b / d + 1
    ensures a == 0 ==> (a + b) / d == b / d && a / d == 0
  {
    FloorOfSum(a, b, d);
    assert b / d >= 0;
  }

  /** Floor divisions against the sum of floors, one term more. */
  lemma GapStep(sum: nat, term: nat, floors: int, timescale: nat, k: nat)
    requires timescale > 0 && Millis(sum, timescale) - k < floors <= Millis(sum, timescale)
    ensures Millis(sum, timescale) <= Millis(sum + term, timescale)
    ensures Millis(sum + term, timescale) - (k + 1) < floors + Millis(term, timescale) <= Millis(sum + term, timescale)
  {
    RoundingStep(sum * 1000, term * 1000, timescale);
    assert (sum + term) * 1000 == sum * 1000 + term * 1000;
  }

  lemma GapStart(term: nat, timescale: nat)
    requires timescale > 0
    ensures Millis(0, timescale) == 0 <= Millis(term, timescale)
  {
    RoundingStep(0, term * 1000, timescale);
  }

  lemma {:induction false} RoundingGap(runs: seq<Run>, timescale: nat, k: nat)
    requires UnsignedRuns(runs) && timescale > 0
    ensures k == 0 ==> Millis(RunSum(runs, 0), timescale) == MillisSum(runs, timescale, 0) == 0
    ensures k > 0 ==> Millis(RunSum(runs, k - 1), timescale) <= Millis(RunSum(runs, k), timescale)
    ensures k > 0 ==>
      Millis(RunSum(runs, k), timescale) - k < MillisSum(runs, timescale, k) <= Millis(RunSum(runs, k), timescale)
  {
    if k == 0 {
      GapStart(0, timescale);
    } else {
      RoundingGap(runs, timescale, k - 1);
      RunSumUnsigned(runs, k - 1);
      RunAtUnsigned(runs, k - 1);
      if k == 1 {
        GapStart(RunAt(runs, 0), timescale);
      } else {
        GapStep(RunSum(runs, k - 1), RunAt(runs, k - 1), MillisSum(runs, timescale, k - 1), timescale, k - 1);
      }
    }
  }

  /** Sum of the durations of the first k frames. */
  function DurationSum(frames: seq<FrameHeader>, k: nat): int
    requires k <= |frames|
  {
    if k == 0 then 0 else DurationSum(frames, k - 1) + frames[k - 1].duration
  }

  lemma {:induction false} DurationSumIsMillisSum(t: Track, audio: bool, k: nat)
    requires Accepted(t) && UnsignedRuns(t.stts) && k <= |Headers(t, audio)| == FrameCount(t)
    ensures DurationSum(Headers(t, audio), k) == MillisSum(t.stts, t.timescale, k)
  {
    if k > 0 {
      DurationSumIsMillisSum(t, audio, k - 1);
      HeadersAt(t, audio, k - 1);
      RunAtUnsigned(t.stts, k - 1);
    }
  }

  lemma TimestampAt(t: Track, audio: bool, k: nat)
    requires Accepted(t) && UnsignedRuns(t.stts) && k < |Headers(t, audio)|
    ensures Headers(t, audio)[k].decodingTimestamp == Millis(RunSum(t.stts, k), t.timescale)
  {
    HeadersAt(t, audio, k);
    RunSumUnsigned(t.stts, k);
  }

  lemma StartsAtZero(t: Track, audio: bool)
    requires Accepted(t) && UnsignedRuns(t.stts) && 0 < |Headers(t, audio)|
    ensures Headers(t, audio)[0].decodingTimestamp == 0
  {
    TimestampAt(t, audio, 0);
    RoundingGap(t.stts, t.timescale, 0);
  }

  lemma NeverDecreases(t: Track, audio: bool, k: nat)
    requires Accepted(t) && UnsignedRuns(t.stts) && 0 < k < |Headers(t, audio)|
    ensures Headers(t, audio)[k - 1].decodingTimestamp <= Headers(t, audio)[k].decodingTimestamp
  {
    TimestampAt(t, audio, k - 1);
    TimestampAt(t, audio, k);
    RoundingGap(t.stts, t.timescale, k);
  }

  /** Rounding never accumulates into the timestamps: frame k carries the exact
      clock rounded once, so the timestamps never decrease, while adding up the
      k rounded durations falls behind by less than k milliseconds. */
  lemma TimestampsDoNotDrift(t: Track, audio: bool, k: nat)
    requires Accepted(t) && UnsignedRuns(t.stts) && 0 < k < |Headers(t, audio)|
    ensures var frames := Headers(t, audio);
      && frames[0].decodingTimestamp == 0
      && frames[k].decodingTimestamp == Millis(RunSum(t.stts, k), t.timescale)
      && frames[k - 1].decodingTimestamp <= frames[k].decodingTimestamp
      && frames[k].decodingTimestamp - k < DurationSum(frames, k) <= frames[k].decodingTimestamp
  {
    StartsAtZero(t, audio);
    NeverDecreases(t, audio, k);
    TimestampAt(t, audio, k);
    RoundingGap(t.stts, t.timescale, k);
    DurationSumIsMillisSum(t, audio, k);
  }

  lemma {:induction false} UniformRunSum(count: nat, delta: int, n: nat)
    requires n <= count
    ensures RunSum([Run(count, delta)], n) == n * delta
  {
    if n > 0 {
      UniformRunSum(count, delta, n - 1);
      assert (n - 1) * delta + delta == n * delta;
    }
  }
}
