/** Moving the MOOV atom to the front of a file, and the chunk offsets with it. */
module Relocate {
  import opened Media
  import opened SampleTable
  import opened Demuxer
  import opened DemuxerFacts
  import opened FileReading

  /** A topmost atom. Only what relocation touches is spelled out: the STCO entries
      of a MOOV, and the split of an MDAT into header and body. */
  datatype Atom =
    | Ftyp(bytes: seq<Byte>)
    | Moov(head: seq<Byte>, audioStco: Option<seq<nat>>, middle: seq<Byte>, videoStco: Option<seq<nat>>,
        tail: seq<Byte>)
    | MdatAtom(header: seq<Byte>, body: seq<Byte>)
    | OtherAtom(bytes: seq<Byte>)

  /** A 32-bit field, most significant byte first. */
  function EncodeU32(x: nat): (r: seq<Byte>)
    ensures |r| == 4
  {
    [x / 0x100_0000 % 256, x / 0x1_0000 % 256, x / 0x100 % 256, x % 256]
  }

  lemma EncodedValue(x: nat)
    requires x < TWO32
    ensures var r: seq<int> := EncodeU32(x); r[0] * 0x100_0000 + r[1] * 0x1_0000 + r[2] * 0x100 + r[3] == x
  {
    var x1, x2, x3 := x / 0x100, x / 0x1_0000, x / 0x100_0000;
    assert x3 % 256 == x3;
    assert x2 == x3 * 256 + x2 % 256;
    assert x1 == x2 * 256 + x1 % 256;
    assert x == x1 * 256 + x % 256;
  }

  function EncodeOffsets(stco: seq<nat>): (r: seq<Byte>)
    ensures |r| == 4 * |stco|
  {
    if stco == [] then [] else EncodeU32(stco[0]) + EncodeOffsets(stco[1..])
  }

  function EncodeStco(stco: Option<seq<nat>>): seq<Byte> {
    if stco.Some? then EncodeOffsets(stco.value) else []
  }

  function Encode(a: Atom): seq<Byte> {
    match a
    case Ftyp(bytes) => bytes
    case Moov(head, audio, middle, video, tail) => head + EncodeStco(audio) + middle + EncodeStco(video) + tail
    case MdatAtom(header, body) => header + body
    case OtherAtom(bytes) => bytes
  }

  function EncodeFile(file: seq<Atom>): seq<Byte> {
    if file == [] then [] else EncodeFile(file[..|file| - 1]) + Encode(file[|file| - 1])
  }

  /** Where atom i starts in the file. */
  function AtomStart(file: seq<Atom>, i: nat): nat
    requires i <= |file|
  {
    |EncodeFile(file[..i])|
  }

  /** Atoms carry at least a size and a type. */
  ghost predicate WellFormed(file: seq<Atom>) {
    && (forall i :: 0 <= i < |file| ==> |Encode(file[i])| >= 8)
    && (forall i :: 0 <= i < |file| && file[i].MdatAtom? ==> |file[i].header| >= 8)
  }

  // ----- The first pass -----

  function CountFtyp(file: seq<Atom>, n: nat): nat
    requires n <= |file|
  {
    if n == 0 then 0 else CountFtyp(file, n - 1) + if file[n - 1].Ftyp? then 1 else 0
  }

  function CountMoov(file: seq<Atom>, n: nat): nat
    requires n <= |file|
  {
    if n == 0 then 0 else CountMoov(file, n - 1) + if file[n - 1].Moov? then 1 else 0
  }

  /** An MDAT at position 0 goes unnoticed: zero stands for "none met yet". */
  function CountMdat(file: seq<Atom>, n: nat): nat
    requires n <= |file|
  {
    if n == 0 then 0 else CountMdat(file, n - 1) + if file[n - 1].MdatAtom? && n > 1 then 1 else 0
  }

  function FirstMoov(file: seq<Atom>, from: nat): (m: nat)
    requires from <= |file|
    ensures from <= m <= |file|
    ensures m < |file| ==> file[m].Moov?
    ensures forall i :: from <= i < m ==> !file[i].Moov?
    decreases |file| - from
  {
    if from == |file| || file[from].Moov? then from else FirstMoov(file, from + 1)
  }

  lemma {:induction false} CountsGrow(file: seq<Atom>, a: nat, b: nat)
    requires a <= b <= |file|
    ensures CountFtyp(file, a) <= CountFtyp(file, b)
    ensures CountMoov(file, a) <= CountMoov(file, b)
    ensures CountMdat(file, a) <= CountMdat(file, b)
  {
    if a < b {
      CountsGrow(file, a, b - 1);
    }
  }

  /** The MOOV already stands between FTYP and MDAT. */
  predicate InPlace(file: seq<Atom>) {
    var m := FirstMoov(file, 0);
    m < |file| && CountFtyp(file, m) == 1 && CountMdat(file, m) == 0
  }

  predicate OneOfEach(file: seq<Atom>) {
    CountFtyp(file, |file|) == 1 && CountMoov(file, |file|) == 1 && CountMdat(file, |file|) == 1
  }

  datatype FixResult = FixAlready | FixDone | FixError

  /** Nothing to do beats the structural errors that lie behind the MOOV. */
  function ExpectedResult(file: seq<Atom>, alwaysFix: bool): FixResult {
    if !alwaysFix && InPlace(file) then FixAlready else if OneOfEach(file) then FixDone else FixError
  }

  // ----- The second pass -----

  function Shift(stco: Option<seq<nat>>, delta: nat): Option<seq<nat>> {
    if stco.Some?
    then Some(seq(|stco.value|, i requires 0 <= i < |stco.value| => U32(stco.value[i] + delta)))
    else None
  }

  function Shifted(moov: Atom): Atom
    requires moov.Moov?
  {
    var delta := |Encode(moov)|;
    moov.(audioStco := Shift(moov.audioStco, delta), videoStco := Shift(moov.videoStco, delta))
  }

  /** What is written for one atom of the input. */
  function Rewritten(a: Atom, moov: Atom): seq<Byte>
    requires moov.Moov?
  {
    if a.Moov? then [] else Encode(a) + if a.Ftyp? then Encode(Shifted(moov)) else []
  }

  function RewrittenFile(file: seq<Atom>, moov: Atom): seq<Byte>
    requires moov.Moov?
  {
    if file == [] then []
    else RewrittenFile(file[..|file| - 1], moov) + Rewritten(file[|file| - 1], moov)
  }

  /** Adds `delta` to every chunk offset, in 32-bit fields. */
  method ShiftOffsets(stco: Option<seq<nat>>, delta: nat) returns (shifted: Option<seq<nat>>)
    ensures shifted == Shift(stco, delta)
  {
    if stco.None? {
      return None;
    }
    var records := stco.value;
    for i := 0 to |records|
      invariant |records| == |stco.value|
      invariant forall k :: 0 <= k < i ==> records[k] == U32(stco.value[k] + delta)
      invariant forall k :: i <= k < |records| ==> records[k] == stco.value[k]
    {
      records := records[i := U32(records[i] + delta)];
    }
    assert records == Shift(stco, delta).value;
    shifted := Some(records);
  }

  function Data(frames: seq<Frame>): seq<Byte> {
    if frames == [] then [] else frames[0].data + Data(frames[1..])
  }

  /** The raw pieces of a body, put together again, are the body. */
  lemma {:induction false} CutReassembles(headers: seq<FrameHeader>, bytes: seq<Byte>, from: int, to: int)
    requires Tiles(headers, from, to) && |bytes| == to - from
    ensures Data(Cut(headers, bytes)) == bytes
  {
    if headers != [] {
      TilesForward(headers[1..], headers[0].End(), to);
      CutReassembles(headers[1..], bytes[headers[0].size..], headers[0].End(), to);
      assert Cut(headers, bytes)[1..] == Cut(headers[1..], bytes[headers[0].size..]);
    }
  }

  /** An MDAT body as it is read without an index. */
  function RawFrames(body: seq<Byte>): seq<Frame> {
    Cut(RawPieces(0, |body|, 0), body)
  }

  /** Copies an MDAT body piece by piece. */
  method CopyBody(body: seq<Byte>, out: seq<Byte>) returns (out': seq<Byte>)
    ensures out' == out + body
  {
    RawPiecesTile(0, |body|, 0);
    CutReassembles(RawPieces(0, |body|, 0), body, 0, |body|);
    var frames := RawFrames(body);
    out' := out;
    assert frames[0..] == frames;
    for i := 0 to |frames|
      invariant out' + Data(frames[i..]) == out + body
    {
      assert frames[i..][1..] == frames[i + 1..];
      out' := out' + frames[i].data;
    }
  }

  lemma StartStep(file: seq<Atom>, i: nat)
    requires i < |file|
    ensures AtomStart(file, i + 1) == AtomStart(file, i) + |Encode(file[i])|
  {
    assert file[..i + 1][..i] == file[..i];
  }

  lemma SecondOfItsKind(file: seq<Atom>, i: nat, m: nat)
    requires i < |file| && m == FirstMoov(file, 0)
    requires CountFtyp(file, i + 1) >= 2 || CountMoov(file, i + 1) >= 2 || CountMdat(file, i + 1) >= 2
    ensures !OneOfEach(file)
    ensures i < m ==> !InPlace(file)
  {
    CountsGrow(file, i + 1, |file|);
    if i < m {
      CountsGrow(file, i + 1, m);
      NoMoov(file, i + 1);
    }
  }

  method NextPosition(file: seq<Atom>, i: nat, position: nat) returns (next: nat)
    requires i < |file| && WellFormed(file) && position == AtomStart(file, i)
    ensures next == AtomStart(file, i + 1) && next > 0
  {
    StartStep(file, i);
    next := position + |Encode(file[i])|;
  }

  /** What the first pass knows after i atoms. */
  ghost predicate Met(file: seq<Atom>, i: nat, ftypMet: bool, moov: Option<Atom>, mdatOffset: nat)
    requires i <= |file|
  {
    && CountFtyp(file, i) == (if ftypMet then 1 else 0)
    && CountMoov(file, i) == (if moov.Some? then 1 else 0)
    && CountMdat(file, i) == (if mdatOffset != 0 then 1 else 0)
    && (moov.Some? <==> FirstMoov(file, 0) < i)
    && (moov.Some? ==> moov == Some(file[FirstMoov(file, 0)]))
  }

  predicate IsSecond(atom: Atom, ftypMet: bool, moov: Option<Atom>, mdatOffset: nat) {
    (atom.Ftyp? && ftypMet) || (atom.Moov? && moov.Some?) || (atom.MdatAtom? && mdatOffset != 0)
  }

  lemma MetStep(file: seq<Atom>, i: nat, ftypMet: bool, moov: Option<Atom>, mdatOffset: nat, position: nat)
    requires i < |file| && Met(file, i, ftypMet, moov, mdatOffset) && !IsSecond(file[i], ftypMet, moov, mdatOffset)
    requires position != 0 <==> i > 0
    ensures Met(file, i + 1, ftypMet || file[i].Ftyp?, if file[i].Moov? then Some(file[i]) else moov,
                if file[i].MdatAtom? then position else mdatOffset)
  {
  }

  lemma SecondMet(file: seq<Atom>, i: nat, ftypMet: bool, moov: Option<Atom>, mdatOffset: nat)
    requires i < |file| && Met(file, i, ftypMet, moov, mdatOffset) && IsSecond(file[i], ftypMet, moov, mdatOffset)
    ensures !OneOfEach(file) && (i < FirstMoov(file, 0) ==> !InPlace(file))
  {
    SecondOfItsKind(file, i, FirstMoov(file, 0));
  }

  lemma InPlaceHere(file: seq<Atom>, i: nat, ftypMet: bool, mdatOffset: nat)
    requires i < |file| && Met(file, i, ftypMet, None, mdatOffset) && file[i].Moov?
    ensures FirstMoov(file, 0) == i && (InPlace(file) <==> ftypMet && mdatOffset == 0)
  {
  }

  lemma AllMet(file: seq<Atom>, alwaysFix: bool, ftypMet: bool, moov: Option<Atom>, mdatOffset: nat)
    requires Met(file, |file|, ftypMet, moov, mdatOffset) && (moov.Some? ==> alwaysFix || !InPlace(file))
    ensures ExpectedResult(file, alwaysFix) == if ftypMet && moov.Some? && mdatOffset != 0 then FixDone else FixError
  {
    CountsGrow(file, FirstMoov(file, 0), |file|);
  }

  /** First pass: finds the MOOV and checks the structure. */
  method Examine(file: seq<Atom>, alwaysFix: bool) returns (result: FixResult, moov: Option<Atom>)
    requires WellFormed(file)
    ensures result == ExpectedResult(file, alwaysFix)
    ensures result == FixDone ==> FirstMoov(file, 0) < |file| && moov == Some(file[FirstMoov(file, 0)])
  {
    moov := None;
    var mdatOffset, ftypMet, position := 0, false, 0;
    for i := 0 to |file|
      invariant position == AtomStart(file, i) && (position != 0 <==> i > 0)
      invariant Met(file, i, ftypMet, moov, mdatOffset)
      invariant moov.Some? ==> alwaysFix || !InPlace(file)
    {
      var atom := file[i];
      var next := NextPosition(file, i, position);
      if IsSecond(atom, ftypMet, moov, mdatOffset) {
        SecondMet(file, i, ftypMet, moov, mdatOffset);
        return FixError, None;
      }
      MetStep(file, i, ftypMet, moov, mdatOffset, position);
      if atom.Ftyp? {
        ftypMet := true;
      } else if atom.Moov? {
        InPlaceHere(file, i, ftypMet, mdatOffset);
        if ftypMet && mdatOffset == 0 && !alwaysFix {
          return FixAlready, None;
        }
        moov := Some(atom);
      } else if atom.MdatAtom? {
        mdatOffset := position;
      }
      position := next;
    }
    AllMet(file, alwaysFix, ftypMet, moov, mdatOffset);
    if !ftypMet {
      return FixError, None;
    }
    if moov == None {
      return FixError, None;
    }
    if mdatOffset == 0 {
      return FixError, None;
    }
    result := FixDone;
  }

  lemma RewrittenStep(file: seq<Atom>, i: nat, moov: Atom)
    requires i < |file| && moov.Moov?
    ensures RewrittenFile(file[..i + 1], moov) == RewrittenFile(file[..i], moov) + Rewritten(file[i], moov)
  {
    assert file[..i + 1][..i] == file[..i];
  }

  /** Copies one atom; a MOOV is left out, and the fixed one follows FTYP. */
  method CopyAtom(atom: Atom, ghost moov: Atom, fixedMoov: Atom, out: seq<Byte>) returns (out': seq<Byte>)
    requires moov.Moov? && fixedMoov == Shifted(moov)
    ensures out' == out + Rewritten(atom, moov)
  {
    out' := out;
    if atom.Moov? {
      return;
    }
    if atom.MdatAtom? {
      out' := CopyBody(atom.body, out + atom.header);
    } else {
      out' := out + Encode(atom);
    }
    if atom.Ftyp? {
      out' := out' + Encode(fixedMoov);
    }
  }

  /** Second pass: copies every atom but the MOOV, which goes right after FTYP. */
  method Rewrite(file: seq<Atom>, moov: Atom) returns (out: seq<Byte>)
    requires moov.Moov?
    ensures out == RewrittenFile(file, moov)
  {
    var deltaOffset := |Encode(moov)|;
    var audioStco := ShiftOffsets(moov.audioStco, deltaOffset);
    var videoStco := ShiftOffsets(moov.videoStco, deltaOffset);
    var fixedMoov := moov.(audioStco := audioStco, videoStco := videoStco);
    assert fixedMoov == Shifted(moov);
    out := [];
    for i := 0 to |file|
      invariant out == RewrittenFile(file[..i], moov)
    {
      RewrittenStep(file, i, moov);
      out := CopyAtom(file[i], moov, fixedMoov, out);
    }
    assert file[..|file|] == file;
  }

  // ----- The fixed file, atom by atom -----

  /** The same offsets, each increased in its 32-bit field. */
  ghost predicate OffsetsMoved(before: Option<seq<nat>>, after: Option<seq<nat>>, delta: nat) {
    && (before.None? <==> after.None?)
    && (before.Some? ==>
          && |after.value| == |before.value|
          && forall i :: 0 <= i < |before.value| ==> after.value[i] == (before.value[i] + delta) % 0x1_0000_0000)
  }

  /** A MOOV with its own size added to every chunk offset, and nothing else changed. */
  ghost predicate MoovMoved(moov: Atom, moov': Atom) {
    && moov.Moov? && moov'.Moov?
    && moov'.head == moov.head && moov'.middle == moov.middle && moov'.tail == moov.tail
    && OffsetsMoved(moov.audioStco, moov'.audioStco, |Encode(moov)|)
    && OffsetsMoved(moov.videoStco, moov'.videoStco, |Encode(moov)|)
  }

  ghost predicate OnlyFtypAt(file: seq<Atom>, f: nat) {
    f < |file| && file[f].Ftyp? && forall k :: 0 <= k < |file| && file[k].Ftyp? ==> k == f
  }

  ghost predicate OnlyMoovAt(file: seq<Atom>, m: nat) {
    m < |file| && file[m].Moov? && forall k :: 0 <= k < |file| && file[k].Moov? ==> k == m
  }

  /** The atoms with number m taken out and another one put right behind number f. */
  function MovedBehind(file: seq<Atom>, f: nat, m: nat, moov: Atom): seq<Atom>
    requires f < |file| && m < |file| && f != m
  {
    if f < m then file[..f + 1] + [moov] + file[f + 1..m] + file[m + 1..]
    else file[..m] + file[m + 1..f + 1] + [moov] + file[f + 1..]
  }

  /** What has become of a file that was fixed. */
  ghost predicate Fixed(file: seq<Atom>, f: nat, m: nat, moov: Atom, out: seq<Byte>) {
    && OnlyFtypAt(file, f) && OnlyMoovAt(file, m) && MoovMoved(file[m], moov)
    && out == EncodeFile(MovedBehind(file, f, m, moov))
  }

  lemma AppendAtom(file: seq<Atom>, a: Atom)
    ensures EncodeFile(file + [a]) == EncodeFile(file) + Encode(a)
    ensures forall moov: Atom :: moov.Moov? ==>
      RewrittenFile(file + [a], moov) == RewrittenFile(file, moov) + Rewritten(a, moov)
  {
    assert (file + [a])[..|file|] == file;
  }

  lemma {:induction false} EncodeConcat(a: seq<Atom>, b: seq<Atom>)
    ensures EncodeFile(a + b) == EncodeFile(a) + EncodeFile(b)
  {
    if b == [] {
      assert a + b == a;
    } else {
      var head, last := b[..|b| - 1], b[|b| - 1];
      EncodeConcat(a, head);
      assert a + b == (a + head) + [last];
      AppendAtom(a + head, last);
      Reassociate(EncodeFile(a), EncodeFile(head), Encode(last));
    }
  }

  lemma {:induction false} RewrittenConcat(a: seq<Atom>, b: seq<Atom>, moov: Atom)
    requires moov.Moov?
    ensures RewrittenFile(a + b, moov) == RewrittenFile(a, moov) + RewrittenFile(b, moov)
  {
    if b == [] {
      assert a + b == a;
    } else {
      var head, last := b[..|b| - 1], b[|b| - 1];
      RewrittenConcat(a, head, moov);
      assert a + b == (a + head) + [last];
      AppendAtom(a + head, last);
      Reassociate(RewrittenFile(a, moov), RewrittenFile(head, moov), Rewritten(last, moov));
    }
  }

  ghost predicate OnlyOthers(part: seq<Atom>) {
    forall k :: 0 <= k < |part| ==> !part[k].Ftyp? && !part[k].Moov?
  }

  lemma OthersAround(file: seq<Atom>, f: nat, m: nat, a: nat, b: nat)
    requires OnlyFtypAt(file, f) && OnlyMoovAt(file, m) && a <= b <= |file|
    requires !(a <= f < b) && !(a <= m < b)
    ensures OnlyOthers(file[a..b])
  {
  }

  lemma OthersConcat(a: seq<Atom>, b: seq<Atom>)
    requires OnlyOthers(a) && OnlyOthers(b)
    ensures OnlyOthers(a + b)
  {
  }

  /** Atoms other than FTYP and MOOV are copied. */
  lemma {:induction false} OthersCopied(part: seq<Atom>, moov: Atom)
    requires moov.Moov? && OnlyOthers(part)
    ensures RewrittenFile(part, moov) == EncodeFile(part)
  {
    if part != [] {
      OthersCopied(part[..|part| - 1], moov);
    }
  }

  /** A stretch with the FTYP in it, copied with the shifted MOOV put behind the FTYP. */
  lemma FtypRewritten(before: seq<Atom>, ftyp: Atom, after: seq<Atom>, moov: Atom)
    requires moov.Moov? && ftyp.Ftyp?
    requires OnlyOthers(before) && OnlyOthers(after)
    ensures RewrittenFile(before + [ftyp] + after, moov) == EncodeFile(before + [ftyp] + [Shifted(moov)] + after)
  {
    OthersCopied(before, moov);
    OthersCopied(after, moov);
    RewrittenConcat(before + [ftyp], after, moov);
    EncodeConcat(before + [ftyp] + [Shifted(moov)], after);
    AppendAtom(before, ftyp);
    AppendAtom(before + [ftyp], Shifted(moov));
    Reassociate(EncodeFile(before), Encode(ftyp), Encode(Shifted(moov)));
  }

  /** Taking the MOOV out. */
  lemma MoovDropped(before: seq<Atom>, moov: Atom, after: seq<Atom>)
    requires moov.Moov?
    ensures RewrittenFile(before + [moov] + after, moov) == RewrittenFile(before + after, moov)
  {
    AppendAtom(before, moov);
    RewrittenConcat(before + [moov], after, moov);
    RewrittenConcat(before, after, moov);
    assert RewrittenFile(before, moov) + [] == RewrittenFile(before, moov);
  }

  lemma Forward(file: seq<Atom>, f: nat, m: nat, moov: Atom)
    requires f < m < |file|
    ensures file[..m] + file[m + 1..] == file[..f] + [file[f]] + (file[f + 1..m] + file[m + 1..])
    ensures MovedBehind(file, f, m, moov) == file[..f] + [file[f]] + [moov] + (file[f + 1..m] + file[m + 1..])
  {
    assert file[..m] == file[..f] + [file[f]] + file[f + 1..m];
    assert file[..f + 1] == file[..f] + [file[f]];
  }

  lemma Backward(file: seq<Atom>, f: nat, m: nat, moov: Atom)
    requires m < f < |file|
    ensures file[..m] + file[m + 1..] == (file[..m] + file[m + 1..f]) + [file[f]] + file[f + 1..]
    ensures MovedBehind(file, f, m, moov) == (file[..m] + file[m + 1..f]) + [file[f]] + [moov] + file[f + 1..]
  {
    assert file[m + 1..] == file[m + 1..f] + [file[f]] + file[f + 1..];
    assert file[m + 1..f + 1] == file[m + 1..f] + [file[f]];
  }

  lemma MoovTakenOut(file: seq<Atom>, m: nat)
    requires m < |file| && file[m].Moov?
    ensures RewrittenFile(file, file[m]) == RewrittenFile(file[..m] + file[m + 1..], file[m])
  {
    SplitAtAtom(file, m);
    MoovDropped(file[..m], file[m], file[m + 1..]);
  }

  lemma SplitAtAtom(file: seq<Atom>, m: nat)
    requires m < |file|
    ensures file[..m] + [file[m]] + file[m + 1..] == file
  {
  }

  lemma RewrittenForward(file: seq<Atom>, f: nat, m: nat)
    requires OnlyFtypAt(file, f) && OnlyMoovAt(file, m) && f < m
    ensures RewrittenFile(file, file[m]) == EncodeFile(MovedBehind(file, f, m, Shifted(file[m])))
  {
    var before, after := file[..f], file[f + 1..m] + file[m + 1..];
    MoovTakenOut(file, m);
    Forward(file, f, m, Shifted(file[m]));
    OthersAround(file, f, m, 0, f);
    OthersAround(file, f, m, f + 1, m);
    OthersAround(file, f, m, m + 1, |file|);
    OthersConcat(file[f + 1..m], file[m + 1..]);
    FtypRewritten(before, file[f], after, file[m]);
  }

  lemma RewrittenBackward(file: seq<Atom>, f: nat, m: nat)
    requires OnlyFtypAt(file, f) && OnlyMoovAt(file, m) && m < f
    ensures RewrittenFile(file, file[m]) == EncodeFile(MovedBehind(file, f, m, Shifted(file[m])))
  {
    var before, after := file[..m] + file[m + 1..f], file[f + 1..];
    MoovTakenOut(file, m);
    Backward(file, f, m, Shifted(file[m]));
    OthersAround(file, f, m, 0, m);
    OthersAround(file, f, m, m + 1, f);
    OthersAround(file, f, m, f + 1, |file|);
    OthersConcat(file[..m], file[m + 1..f]);
    FtypRewritten(before, file[f], after, file[m]);
  }

  lemma RewrittenIsMoved(file: seq<Atom>, f: nat, m: nat)
    requires OnlyFtypAt(file, f) && OnlyMoovAt(file, m)
    ensures RewrittenFile(file, file[m]) == EncodeFile(MovedBehind(file, f, m, Shifted(file[m])))
  {
    if f < m {
      RewrittenForward(file, f, m);
    } else {
      RewrittenBackward(file, f, m);
    }
  }

  lemma ShiftedIsMoved(moov: Atom)
    requires moov.Moov?
    ensures MoovMoved(moov, Shifted(moov))
  {
  }

  lemma OnlyShiftedIsMoved(moov: Atom, moov': Atom)
    requires MoovMoved(moov, moov')
    ensures moov' == Shifted(moov)
  {
    var shifted := Shifted(moov);
    if moov.audioStco.Some? {
      assert moov'.audioStco.value == shifted.audioStco.value;
    }
    if moov.videoStco.Some? {
      assert moov'.videoStco.value == shifted.videoStco.value;
    }
  }

  lemma {:induction false} FtypsCounted(file: seq<Atom>, n: nat)
    requires n <= |file|
    ensures CountFtyp(file, n) == 0 <==> forall k :: 0 <= k < n ==> !file[k].Ftyp?
    ensures CountFtyp(file, n) == 1 <==> exists f :: 0 <= f < n && OnlyFtypAt(file[..n], f)
  {
    if n > 0 {
      FtypsCounted(file, n - 1);
      var now, before := file[..n], file[..n - 1];
      if f :| 0 <= f < n - 1 && OnlyFtypAt(before, f) {
        assert now[f] == before[f];
        assert !file[n - 1].Ftyp? ==> OnlyFtypAt(now, f);
      }
      if f :| 0 <= f < n && OnlyFtypAt(now, f) {
        assert f < n - 1 ==> OnlyFtypAt(before, f);
        assert forall k :: 0 <= k < n - 1 ==> file[k] == now[k];
      }
      if CountFtyp(file, n - 1) == 0 && file[n - 1].Ftyp? {
        assert OnlyFtypAt(now, n - 1);
      }
    }
  }

  lemma {:induction false} MdatsCounted(file: seq<Atom>, n: nat)
    requires n <= |file|
    ensures CountMdat(file, n) == 0 <==> forall k :: 0 < k < n ==> !file[k].MdatAtom?
    ensures CountMdat(file, n) == 1 <==> exists d :: 0 <= d < n && OnlyMdatAt(file[..n], d)
  {
    if n > 0 {
      MdatsCounted(file, n - 1);
      var now, before := file[..n], file[..n - 1];
      if d :| 0 <= d < n - 1 && OnlyMdatAt(before, d) {
        assert now[d] == before[d];
        assert !file[n - 1].MdatAtom? ==> OnlyMdatAt(now, d);
      }
      if d :| 0 <= d < n && OnlyMdatAt(now, d) {
        assert d < n - 1 ==> OnlyMdatAt(before, d);
        assert forall k :: 0 <= k < n - 1 ==> file[k] == now[k];
      }
      if CountMdat(file, n - 1) == 0 && file[n - 1].MdatAtom? && n > 1 {
        assert OnlyMdatAt(now, n - 1);
      }
    }
  }

  lemma OneMoovIff(file: seq<Atom>)
    ensures CountMoov(file, |file|) == 1 <==> exists m :: 0 <= m < |file| && OnlyMoovAt(file, m)
  {
    if CountMoov(file, |file|) == 1 {
      OnlyMoov(file);
      assert OnlyMoovAt(file, FirstMoov(file, 0));
    }
    if m :| 0 <= m < |file| && OnlyMoovAt(file, m) {
      MoovCounted(file, |file|, m);
      NoSecondMoov(file, |file|, m);
    }
  }

  lemma {:induction false} NoSecondMoov(file: seq<Atom>, n: nat, m: nat)
    requires n <= |file| && OnlyMoovAt(file, m)
    ensures CountMoov(file, n) <= if m < n then 1 else 0
  {
    if n > 0 {
      NoSecondMoov(file, n - 1, m);
    }
  }

  /** An MDAT anywhere but at the very start, where it goes unnoticed. */
  ghost predicate OnlyMdatAt(file: seq<Atom>, d: nat) {
    0 < d < |file| && file[d].MdatAtom? && forall k :: 0 < k < |file| && file[k].MdatAtom? ==> k == d
  }

  /** Before its first MOOV, number m, a file has one FTYP and no MDAT but at the start. */
  ghost predicate InOrder(file: seq<Atom>, m: nat) {
    && m < |file| && file[m].Moov? && (forall k :: 0 <= k < m ==> !file[k].Moov?)
    && (exists f :: 0 <= f < m && OnlyFtypAt(file[..m], f))
    && (forall k :: 0 < k < m ==> !file[k].MdatAtom?)
  }

  lemma InPlaceIff(file: seq<Atom>)
    ensures InPlace(file) <==> exists m :: 0 <= m < |file| && InOrder(file, m)
  {
    var m := FirstMoov(file, 0);
    FtypsCounted(file, m);
    MdatsCounted(file, m);
    if n :| 0 <= n < |file| && InOrder(file, n) {
      assert n == m;
    }
    if InPlace(file) {
      assert InOrder(file, m);
    }
  }

  /** When a file is left alone, when it is fixed, and when it is refused. */
  lemma ResultMeans(file: seq<Atom>, alwaysFix: bool)
    ensures ExpectedResult(file, alwaysFix) == FixAlready <==>
      !alwaysFix && exists m :: 0 <= m < |file| && InOrder(file, m)
    ensures ExpectedResult(file, alwaysFix) == FixDone <==>
      && ExpectedResult(file, alwaysFix) != FixAlready
      && (exists f :: 0 <= f < |file| && OnlyFtypAt(file, f))
      && (exists m :: 0 <= m < |file| && OnlyMoovAt(file, m))
      && (exists d :: 0 <= d < |file| && OnlyMdatAt(file, d))
  {
    assert file[..|file|] == file;
    InPlaceIff(file);
    FtypsCounted(file, |file|);
    OneMoovIff(file);
    MdatsCounted(file, |file|);
  }

  /** The result says exactly which case the file is in. A file that was fixed is the
      input with its MOOV taken out and put right behind its FTYP, the size of the MOOV
      added to every chunk offset in it, and every other atom as it was. */
  method FixFileStructure(file: seq<Atom>, alwaysFix: bool) returns (result: FixResult, out: seq<Byte>)
    requires WellFormed(file)
    ensures result == ExpectedResult(file, alwaysFix)
    ensures result == FixDone ==> exists f, m, moov :: Fixed(file, f, m, moov, out)
  {
    var moov;
    result, moov := Examine(file, alwaysFix);
    out := [];
    if result == FixDone {
      out := Rewrite(file, moov.value);
      FtypsCounted(file, |file|);
      assert file[..|file|] == file;
      OnlyMoov(file);
      ghost var f :| 0 <= f < |file| && OnlyFtypAt(file, f);
      ghost var m := FirstMoov(file, 0);
      RewrittenIsMoved(file, f, m);
      ShiftedIsMoved(file[m]);
      assert Fixed(file, f, m, Shifted(file[m]), out);
    }
  }

  // ----- What relocation preserves -----

  lemma ShiftedSameSize(moov: Atom)
    requires moov.Moov?
    ensures |Encode(Shifted(moov))| == |Encode(moov)|
  {
  }

  /** Where atom i of the input begins in the output. */
  function NewStart(file: seq<Atom>, moov: Atom, i: nat): nat
    requires moov.Moov? && i <= |file|
  {
    |RewrittenFile(file[..i], moov)|
  }

  lemma NewStartStep(file: seq<Atom>, moov: Atom, i: nat)
    requires i < |file| && moov.Moov?
    ensures NewStart(file, moov, i + 1) == NewStart(file, moov, i) + |Rewritten(file[i], moov)|
  {
    assert file[..i + 1][..i] == file[..i];
  }

  /** An atom moves by the MOOV's size when FTYP comes before it, and back when
      the MOOV does. */
  lemma {:induction false} NewStartOf(file: seq<Atom>, moov: Atom, size: nat, i: nat)
    requires i <= |file| && moov.Moov? && |Encode(moov)| == size
    requires forall k :: 0 <= k < |file| && file[k].Moov? ==> file[k] == moov
    requires CountFtyp(file, i) <= 1 && CountMoov(file, i) <= 1
    ensures NewStart(file, moov, i) == AtomStart(file, i)
      + (if CountFtyp(file, i) == 1 then size else 0) - (if CountMoov(file, i) == 1 then size else 0)
  {
    if i == 0 {
      assert file[..0] == [];
    } else {
      NewStartOf(file, moov, size, i - 1);
      StartStep(file, i - 1);
      NewStartStep(file, moov, i - 1);
      ShiftedSameSize(moov);
    }
  }

  /** The bytes of a part stand at some position. */
  ghost predicate StandsAt(all: seq<Byte>, start: nat, part: seq<Byte>) {
    start + |part| <= |all| && all[start..start + |part|] == part
  }

  lemma StandsInLonger(head: seq<Byte>, start: nat, part: seq<Byte>, more: seq<Byte>)
    requires StandsAt(head, start, part)
    ensures StandsAt(head + more, start, part)
  {
    assert (head + more)[start..start + |part|] == head[start..start + |part|];
  }

  lemma StandsAtEnd(head: seq<Byte>, part: seq<Byte>)
    ensures StandsAt(head + part, |head|, part)
  {
  }

  lemma {:induction false} StandsInInput(file: seq<Atom>, i: nat)
    requires i < |file|
    ensures StandsAt(EncodeFile(file), AtomStart(file, i), Encode(file[i]))
  {
    var n := |file| - 1;
    if i < n {
      StandsInInput(file[..n], i);
      assert file[..n][..i] == file[..i];
      StandsInLonger(EncodeFile(file[..n]), AtomStart(file, i), Encode(file[i]), Encode(file[n]));
    } else {
      StandsAtEnd(EncodeFile(file[..n]), Encode(file[n]));
    }
  }

  lemma {:induction false} StandsInOutput(file: seq<Atom>, moov: Atom, i: nat)
    requires i < |file| && moov.Moov?
    ensures StandsAt(RewrittenFile(file, moov), NewStart(file, moov, i), Rewritten(file[i], moov))
  {
    var n := |file| - 1;
    if i < n {
      StandsInOutput(file[..n], moov, i);
      assert file[..n][..i] == file[..i];
      StandsInLonger(RewrittenFile(file[..n], moov), NewStart(file, moov, i), Rewritten(file[i], moov),
          Rewritten(file[n], moov));
    } else {
      StandsAtEnd(RewrittenFile(file[..n], moov), Rewritten(file[n], moov));
    }
  }

  /** When the file was rewritten, an MDAT's bytes are found again further on by
      exactly the amount added to the chunk offsets if and only if FTYP comes before
      it and MOOV after it. */
  lemma MdatMovesByDeltaIff(file: seq<Atom>, d: nat)
    requires WellFormed(file) && OneOfEach(file) && d < |file| && file[d].MdatAtom?
    ensures FirstMoov(file, 0) < |file|
    ensures NewStart(file, file[FirstMoov(file, 0)], d) == AtomStart(file, d) + |Encode(file[FirstMoov(file, 0)])|
      <==> CountFtyp(file, d) == 1 && CountMoov(file, d) == 0
  {
    OnlyMoov(file);
    var moov := file[FirstMoov(file, 0)];
    CountsGrow(file, d, |file|);
    NewStartOf(file, moov, |Encode(moov)|, d);
  }

  lemma {:induction false} MoovCounted(file: seq<Atom>, n: nat, k: nat)
    requires k < n <= |file| && file[k].Moov?
    ensures CountMoov(file, n) >= 1
    ensures forall j :: 0 <= j < n && j != k && file[j].Moov? ==> CountMoov(file, n) >= 2
    decreases n
  {
    if k < n - 1 {
      MoovCounted(file, n - 1, k);
    } else {
      forall j | 0 <= j < n - 1 && file[j].Moov? ensures CountMoov(file, n) >= 2 {
        MoovCounted(file, n - 1, j);
      }
    }
  }

  lemma {:induction false} NoMoov(file: seq<Atom>, n: nat)
    requires n <= |file| && forall k :: 0 <= k < n ==> !file[k].Moov?
    ensures CountMoov(file, n) == 0
  {
    if n > 0 {
      NoMoov(file, n - 1);
    }
  }

  lemma OnlyMoov(file: seq<Atom>)
    requires CountMoov(file, |file|) == 1
    ensures var m := FirstMoov(file, 0); m < |file| && forall k :: 0 <= k < |file| && file[k].Moov? ==> k == m
  {
    var m := FirstMoov(file, 0);
    if m == |file| {
      NoMoov(file, |file|);
    } else {
      MoovCounted(file, |file|, m);
    }
  }

  /** The bytes at an offset of the old file are those at another of the new one. */
  ghost predicate SameBytes(before: seq<Byte>, offset: int, after: seq<Byte>, offset': int, size: nat) {
    0 <= offset <= |before| - size && 0 <= offset' <= |after| - size
    && before[offset..offset + size] == after[offset'..offset' + size]
  }

  lemma SliceOfSlice(all: seq<Byte>, a: nat, b: nat, c: nat, d: nat)
    requires a <= b <= |all| && c <= d <= b - a
    ensures all[a..b][c..d] == all[a + c..a + d]
  {
    forall i | 0 <= i < d - c ensures all[a..b][c..d][i] == all[a + c..a + d][i] {
    }
  }

  lemma PartMoved(before: seq<Byte>, after: seq<Byte>, part: seq<Byte>, start: nat, delta: nat, offset: nat, size: nat)
    requires StandsAt(before, start, part) && StandsAt(after, start + delta, part)
    requires start <= offset && offset + size <= start + |part|
    ensures SameBytes(before, offset, after, offset + delta, size)
  {
    SliceOfSlice(before, start, start + |part|, offset - start, offset - start + size);
    SliceOfSlice(after, start + delta, start + delta + |part|, offset - start, offset - start + size);
  }

  lemma MdatCopied(a: Atom, moov: Atom)
    requires a.MdatAtom? && moov.Moov?
    ensures Rewritten(a, moov) == Encode(a)
  {
  }

  lemma {:induction false} MdatStands(file: seq<Atom>, moov: Atom, d: nat, delta: nat)
    requires d < |file| && file[d].MdatAtom? && moov.Moov?
    requires NewStart(file, moov, d) == AtomStart(file, d) + delta
    ensures StandsAt(EncodeFile(file), AtomStart(file, d), Encode(file[d]))
    ensures StandsAt(RewrittenFile(file, moov), AtomStart(file, d) + delta, Encode(file[d]))
  {
    StandsInInput(file, d);
    StandsInOutput(file, moov, d);
    MdatCopied(file[d], moov);
  }

  lemma {:induction false} MdatBytesMove(file: seq<Atom>, moov: Atom, d: nat, delta: nat, offset: nat, size: nat)
    requires d < |file| && file[d].MdatAtom? && moov.Moov?
    requires NewStart(file, moov, d) == AtomStart(file, d) + delta
    requires AtomStart(file, d) <= offset && offset + size <= AtomStart(file, d) + |Encode(file[d])|
    ensures SameBytes(EncodeFile(file), offset, RewrittenFile(file, moov), offset + delta, size)
  {
    MdatStands(file, moov, d, delta);
    PartMoved(EncodeFile(file), RewrittenFile(file, moov), Encode(file[d]), AtomStart(file, d), delta, offset, size);
  }

  /** An offset that fits its 32-bit field is moved by the MOOV's size if and only
      if the result still fits. */
  lemma OffsetShiftsIff(stco: seq<nat>, delta: nat, i: nat)
    requires i < |stco| && stco[i] < TWO32
    ensures Shift(Some(stco), delta).value[i] == stco[i] + delta <==> stco[i] + delta < TWO32
  {
    if stco[i] + delta < TWO32 {
      U32Fits(stco[i] + delta);
    }
  }

  lemma MdatShift(file: seq<Atom>, d: nat) returns (moov: Atom, delta: nat)
    requires WellFormed(file) && OneOfEach(file) && d < |file| && file[d].MdatAtom?
    requires CountFtyp(file, d) == 1 && CountMoov(file, d) == 0
    ensures FirstMoov(file, 0) < |file| && moov == file[FirstMoov(file, 0)] && moov.Moov?
    ensures delta == |Encode(moov)| && NewStart(file, moov, d) == AtomStart(file, d) + delta
  {
    MdatMovesByDeltaIff(file, d);
    moov := file[FirstMoov(file, 0)];
    delta := |Encode(moov)|;
  }

  /** Relocation keeps what the index denotes: a byte range inside the MDAT atom is
      found, unchanged, as much further on as the chunk offsets are moved. */
  lemma RelocationPreservesFrames(file: seq<Atom>, d: nat, offset: nat, size: nat) returns (moov: Atom, delta: nat)
    requires WellFormed(file) && OneOfEach(file) && d < |file| && file[d].MdatAtom?
    requires CountFtyp(file, d) == 1 && CountMoov(file, d) == 0
    requires AtomStart(file, d) <= offset && offset + size <= AtomStart(file, d) + |Encode(file[d])|
    ensures FirstMoov(file, 0) < |file| && moov == file[FirstMoov(file, 0)] && delta == |Encode(moov)|
    ensures SameBytes(EncodeFile(file), offset, RewrittenFile(file, moov), offset + delta, size)
  {
    moov, delta := MdatShift(file, d);
    MdatBytesMove(file, moov, d, delta, offset, size);
  }

  // ----- The index after the move -----

  /** The track as the rewritten MOOV has it. */
  function Moved(t: Track, delta: nat): Track {
    t.(stco := Shift(Some(t.stco), delta).value)
  }

  lemma {:induction false} SameChunk(t: Track, delta: nat, k: nat, chunk: nat)
    requires t.stsc != [] && 1 <= chunk <= |t.stco|
    requires SamplesBefore(t.stsc, chunk) <= k < SamplesBefore(t.stsc, |t.stco| + 1)
    ensures ChunkOf(Moved(t, delta), k, chunk) == ChunkOf(t, k, chunk)
    decreases |t.stco| - chunk
  {
    if k >= SamplesBefore(t.stsc, chunk + 1) {
      SameChunk(t, delta, k, chunk + 1);
    }
  }

  /** A frame's offset moves with its chunk's, as long as that still fits. */
  lemma OffsetMoves(t: Track, delta: nat, k: nat)
    requires t.stsc != [] && k < FrameCount(t) && Fits(t, delta)
    ensures OffsetOf(Moved(t, delta), k) == OffsetOf(t, k) + delta
  {
    SameChunk(t, delta, k, 1);
    OffsetShiftsIff(t.stco, delta, ChunkOf(t, k, 1) - 1);
  }

  ghost predicate Fits(t: Track, delta: nat) {
    forall i :: 0 <= i < |t.stco| ==> t.stco[i] + delta < TWO32
  }

  /** The chunk offsets of a track are those in the MOOV. */
  ghost predicate HasTrack(moov: Atom, audio: bool, t: Track) {
    moov.Moov? && Some(t.stco) == if audio then moov.audioStco else moov.videoStco
  }

  lemma TrackMoves(moov: Atom, audio: bool, t: Track)
    requires HasTrack(moov, audio, t)
    ensures HasTrack(Shifted(moov), audio, Moved(t, |Encode(moov)|))
  {
  }

  /** Where the index of the old file finds frame k in it, and where the moved index
      finds it in the new file, there are the same bytes. */
  ghost predicate FrameKept(before: seq<Byte>, t: Track, after: seq<Byte>, t': Track, k: nat) {
    && t.stsc != [] && t'.stsc != [] && k < FrameCount(t) && k < FrameCount(t')
    && t'.stsz[k] == t.stsz[k] && SameBytes(before, OffsetOf(t, k), after, OffsetOf(t', k), t.stsz[k])
  }

  /** The index places frame k of a track inside an atom. */
  ghost predicate FrameInside(file: seq<Atom>, d: nat, t: Track, k: nat)
    requires d < |file|
  {
    && t.stsc != [] && k < FrameCount(t) && AtomStart(file, d) <= OffsetOf(t, k)
    && OffsetOf(t, k) + t.stsz[k] <= AtomStart(file, d) + |Encode(file[d])|
  }

  lemma {:induction false} KeptWithPart(before: seq<Byte>, after: seq<Byte>, part: seq<Byte>, start: nat, t: Track,
      delta: nat, k: nat)
    requires t.stsc != [] && k < FrameCount(t) && Fits(t, delta)
    requires StandsAt(before, start, part) && StandsAt(after, start + delta, part)
    requires start <= OffsetOf(t, k) && OffsetOf(t, k) + t.stsz[k] <= start + |part|
    ensures FrameKept(before, t, after, Moved(t, delta), k)
  {
    OffsetMoves(t, delta, k);
    PartMoved(before, after, part, start, delta, OffsetOf(t, k), t.stsz[k]);
  }

  lemma FrameMovesWithMdat(file: seq<Atom>, d: nat, t: Track, k: nat, moov: Atom, delta: nat,
                           before: seq<Byte>, after: seq<Byte>)
    requires d < |file| && file[d].MdatAtom? && moov.Moov? && FrameInside(file, d, t, k) && Fits(t, delta)
    requires NewStart(file, moov, d) == AtomStart(file, d) + delta
    requires before == EncodeFile(file) && after == RewrittenFile(file, moov)
    ensures FrameKept(before, t, after, Moved(t, delta), k)
  {
    var part, start := Encode(file[d]), AtomStart(file, d);
    assert StandsAt(before, start, part) && StandsAt(after, start + delta, part) by {
      MdatStands(file, moov, d, delta);
    }
    KeptWithPart(before, after, part, start, t, delta, k);
  }

  lemma FixedIsRewritten(file: seq<Atom>, f: nat, m: nat, moov: Atom, out: seq<Byte>)
    requires Fixed(file, f, m, moov, out)
    ensures out == RewrittenFile(file, file[m]) && moov == Shifted(file[m]) && FirstMoov(file, 0) == m
  {
    OnlyShiftedIsMoved(file[m], moov);
    RewrittenIsMoved(file, f, m);
  }

  /** In a file that had to be fixed, the index still denotes the same bytes: whatever
      track the old MOOV has, and the MOOV in the output with its own chunk offsets,
      every frame that the old one places in the MDAT is found, unchanged, where the
      new one places it in the output. */
  lemma {:induction false} EveryFrameKept(file: seq<Atom>, d: nat, f: nat, m: nat, moov: Atom, out: seq<Byte>,
                       audio: bool, t: Track, t': Track, k: nat)
    requires WellFormed(file) && file != [] && file[0].Ftyp?
    requires ExpectedResult(file, false) == FixDone && d < |file| && file[d].MdatAtom?
    requires Fixed(file, f, m, moov, out)
    requires HasTrack(file[m], audio, t) && HasTrack(moov, audio, t') && t' == t.(stco := t'.stco)
    requires FrameInside(file, d, t, k) && Fits(t, |Encode(file[m])|)
    ensures FrameKept(EncodeFile(file), t, out, t', k)
  {
    RewrittenWhenNeeded(file, d);
    var moov0, delta := MdatShift(file, d);
    FixedIsRewritten(file, f, m, moov, out);
    TrackMoves(file[m], audio, t);
    FrameMovesWithMdat(file, d, t, k, file[m], delta, EncodeFile(file), out);
  }

  /** A file that starts with FTYP and was not already in order meets the condition:
      its MOOV comes after its MDAT. */
  lemma RewrittenWhenNeeded(file: seq<Atom>, d: nat)
    requires WellFormed(file) && file != [] && file[0].Ftyp?
    requires ExpectedResult(file, false) == FixDone && d < |file| && file[d].MdatAtom?
    ensures CountFtyp(file, d) == 1 && CountMoov(file, d) == 0
  {
    var m := FirstMoov(file, 0);
    assert m == FirstMoov(file, 1);
    OnlyMoov(file);
    FtypFirst(file, d);
    FtypFirst(file, m);
    CountsGrow(file, d, |file|);
    CountsGrow(file, m, |file|);
    if m < d {
      // no MDAT stands before the MOOV, so the file would have been in order
      MdatCounted(file, m, d);
    } else {
      NoMoov(file, d);
    }
  }

  lemma FtypFirst(file: seq<Atom>, n: nat)
    requires 1 <= n <= |file| && file[0].Ftyp?
    ensures CountFtyp(file, n) >= 1
  {
    assert CountFtyp(file, 1) == 1;
    CountsGrow(file, 1, n);
  }

  lemma MdatCounted(file: seq<Atom>, m: nat, d: nat)
    requires m <= d < |file| && d > 0 && file[d].MdatAtom?
    ensures CountMdat(file, m) + 1 <= CountMdat(file, |file|)
  {
    CountsGrow(file, m, d);
    CountsGrow(file, d + 1, |file|);
  }

  /** Forcing the fix on a file whose MOOV is already in front breaks its index:
      the MDAT stays where it was while the chunk offsets move. */
  lemma ForcedFixMovesOnlyOffsets() returns (file: seq<Atom>, moov: Atom)
    ensures WellFormed(file) && InPlace(file) && ExpectedResult(file, true) == FixDone
    ensures |file| == 3 && file[1] == moov && moov.Moov? && file[2].MdatAtom?
    ensures NewStart(file, moov, 2) == AtomStart(file, 2) == 20
    ensures moov.audioStco == Some([28]) && Shifted(moov).audioStco == Some([40])
  {
    var ftyp := Ftyp([0, 0, 0, 8, 102, 116, 121, 112]);
    moov := Moov([0, 0, 0, 12, 109, 111, 111, 118], Some([28]), [], None, []);
    var mdat := MdatAtom([0, 0, 0, 9, 109, 100, 97, 116], [1]);
    file := [ftyp, moov, mdat];
    assert |Encode(moov)| == 12 && |Encode(ftyp)| == 8;
    StartStep(file, 0);
    StartStep(file, 1);
    assert file[..0] == [];
    assert CountFtyp(file, 1) == CountFtyp(file, 0) + 1 == 1 && CountMoov(file, 1) == CountMoov(file, 0) == 0;
    assert CountMdat(file, 1) == CountMdat(file, 0) == 0;
    assert CountFtyp(file, 2) == 1 && CountMoov(file, 2) == 1 && CountMdat(file, 2) == CountMdat(file, 1);
    NewStartOf(file, moov, 12, 2);
    assert Shift(Some([28]), 12).value == [40];
    assert FirstMoov(file, 0) == FirstMoov(file, 1) == 1;
  }
}
