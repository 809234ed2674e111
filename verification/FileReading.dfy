/** Feeding a file to the decoder piece by piece. */
module FileReading {
  import opened Media
  import opened Demuxer
  import opened DemuxerFacts

  function Flatten(chunks: seq<seq<Byte>>): seq<Byte> {
    if chunks == [] then [] else chunks[0] + Flatten(chunks[1..])
  }

  /** Cuts bytes along a list of headers, as long as they last. */
  function Cut(headers: seq<FrameHeader>, bytes: seq<Byte>): seq<Frame> {
    if headers == [] || |bytes| < headers[0].size then []
    else [Frame(headers[0], bytes[..headers[0].size])] + Cut(headers[1..], bytes[headers[0].size..])
  }

  lemma CutShort(headers: seq<FrameHeader>, bytes: seq<Byte>)
    requires headers != [] ==> |bytes| < headers[0].size
    ensures Cut(headers, bytes) == []
  {
  }

  lemma CutOne(headers: seq<FrameHeader>, rest: seq<FrameHeader>, before: seq<Byte>, after: seq<Byte>,
               later: seq<Byte>, frame: Frame)
    requires headers == [frame.header] + rest && frame.header.size <= |before|
    requires frame.data == before[..frame.header.size] && after == before[frame.header.size..]
    ensures Cut(headers, before + later) == [frame] + Cut(rest, after + later)
  {
    var size := frame.header.size;
    assert headers[1..] == rest;
    assert (before + later)[size..] == after + later && (before + later)[..size] == frame.data;
  }

  /** A file delivered in pieces of any sizes. */
  class FileReader {
    const decoder: Decoder
    const buffer: MemoryStream
    var pieces: seq<seq<Byte>>

    ghost predicate Valid()
      reads this, decoder
    {
      decoder.Valid()
    }

    /** The frames still to be returned: they depend only on the bytes that the
        pieces add up to. */
    ghost function Coming(): seq<Frame>
      requires Valid()
      reads this, decoder, buffer
    {
      Cut(decoder.Rest(), buffer.data + Flatten(pieces))
    }

    constructor (decoder: Decoder, pieces: seq<seq<Byte>>)
      requires decoder.Valid()
      ensures Valid() && this.decoder == decoder && fresh(buffer)
      ensures Coming() == Cut(decoder.Rest(), Flatten(pieces))
    {
      this.decoder, this.pieces := decoder, pieces;
      buffer := new MemoryStream();
      new;
      assert buffer.data + Flatten(pieces) == Flatten(pieces);
    }

    /** Returns the next frame, reading more of the file whenever the decoder runs
        short; NoData at the end of the file, no frame at the end of the body. */
    method ReadNext() returns (status: Status, out: Option<Frame>)
      requires Valid()
      modifies this, decoder, buffer
      ensures out.Some? ==> status == Success && Valid() && old(Coming()) == [out.value] + Coming()
      ensures out.None? ==> old(Coming()) == []
      ensures status == NoData ==> Valid() && out.None? && pieces == []
    {
      ghost var coming := Coming();
      while true
        invariant Valid() && Coming() == coming
        decreases |pieces|
      {
        ghost var rest, before, later := decoder.Rest(), buffer.data, Flatten(pieces);
        status, out := decoder.ReadFrame(buffer);
        if status == Success {
          if out == None {
            CutShort(rest, before + later);
          } else {
            CutOne(rest, decoder.Rest(), before, buffer.data, later, out.value);
          }
          return;
        }
        if pieces == [] {
          CutShort(rest, before + later);
          return;
        }
        assert before + later == (before + pieces[0]) + Flatten(pieces[1..]);
        buffer.Append(pieces[0]);
        pieces := pieces[1..];
      }
    }
  }

  /** Frame f holds the bytes of header h, `from` being the position of the first byte. */
  ghost predicate HoldsBytes(f: Frame, h: FrameHeader, bytes: seq<Byte>, from: int) {
    && from <= h.offset && h.End() - from <= |bytes|
    && f == Frame(h, bytes[h.offset - from..h.End() - from])
  }

  lemma HoldsFurtherOn(f: Frame, h: FrameHeader, bytes: seq<Byte>, from: int, skip: nat)
    requires skip <= |bytes| && HoldsBytes(f, h, bytes[skip..], from + skip)
    ensures HoldsBytes(f, h, bytes, from)
  {
    assert bytes[skip..][h.offset - from - skip..h.End() - from - skip] == bytes[h.offset - from..h.End() - from];
  }

  /** With the whole body at hand every frame comes out, and the data of frame i
      are the bytes at its offset. */
  lemma {:induction false} CutOfBody(headers: seq<FrameHeader>, bytes: seq<Byte>, from: int, to: int)
    requires Tiles(headers, from, to) && |bytes| >= to - from
    ensures |Cut(headers, bytes)| == |headers|
    ensures forall i :: 0 <= i < |headers| ==> HoldsBytes(Cut(headers, bytes)[i], headers[i], bytes, from)
  {
    if headers != [] {
      var size, rest := headers[0].size, headers[1..];
      TilesForward(rest, from + size, to);
      CutOfBody(rest, bytes[size..], from + size, to);
      var cut := Cut(rest, bytes[size..]);
      assert Cut(headers, bytes) == [Frame(headers[0], bytes[..size])] + cut;
      forall i | 0 <= i < |headers| ensures HoldsBytes(Cut(headers, bytes)[i], headers[i], bytes, from) {
        if i > 0 {
          assert HoldsBytes(cut[i - 1], rest[i - 1], bytes[size..], from + size);
          HoldsFurtherOn(cut[i - 1], rest[i - 1], bytes, from, size);
        }
      }
    }
  }

  lemma {:induction false} TilesForward(headers: seq<FrameHeader>, from: int, to: int)
    requires Tiles(headers, from, to)
    ensures from <= to
  {
    if headers != [] {
      TilesForward(headers[1..], headers[0].End(), to);
    }
  }
}
