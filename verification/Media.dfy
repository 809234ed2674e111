/** Values shared by the F4V index modules. */
module Media {

  datatype Option<+T> = None | Some(value: T)

  datatype FrameType = AudioFrame | VideoFrame | RawFrame

  /** A frame header: where the frame's bytes live in the file, and its timing. */
  datatype FrameHeader = FrameHeader(
    offset: int,
    size: nat,
    decodingTimestamp: int,
    compositionOffsetMs: int,
    duration: int,
    sampleIndex: int,
    frameType: FrameType,
    keyframe: bool)
  {
    function End(): int {
      offset + size
    }
  }

  /** Sum of the first n entries of s. */
  function SumUpTo(s: seq<nat>, n: nat): (r: nat)
    requires n <= |s|
  {
    if n == 0 then 0 else SumUpTo(s, n - 1) + s[n - 1]
  }

  function Sum(s: seq<nat>): nat {
    SumUpTo(s, |s|)
  }

  lemma {:induction false} SumUpToPrefix(s: seq<nat>, t: seq<nat>, n: nat)
    requires n <= |s| && n <= |t| && s[..n] == t[..n]
    ensures SumUpTo(s, n) == SumUpTo(t, n)
  {
    if n > 0 {
      assert s[n - 1] == s[..n][n - 1] == t[..n][n - 1];
      assert s[..n - 1] == s[..n][..n - 1] == t[..n][..n - 1];
      SumUpToPrefix(s, t, n - 1);
    }
  }

  lemma {:induction false} SumUpToMonotone(s: seq<nat>, m: nat, n: nat)
    requires m <= n <= |s|
    ensures SumUpTo(s, m) <= SumUpTo(s, n)
  {
    if m < n {
      SumUpToMonotone(s, m, n - 1);
    }
  }

  lemma SumAppend(s: seq<nat>, x: nat)
    ensures Sum(s + [x]) == Sum(s) + x
  {
    SumUpToPrefix(s + [x], s, |s|);
  }

  lemma Reassociate<T>(a: seq<T>, b: seq<T>, c: seq<T>)
    ensures (a + b) + c == a + (b + c)
  {
  }

  /** Integer division as the C++ operator does it, truncating toward zero. */
  function TruncDiv(a: int, b: nat): int
    requires b > 0
  {
    if a >= 0 then a / b else -((-a) / b)
  }

  const TWO32: nat := 0x1_0000_0000

  /** Storing a value in an unsigned 32-bit field. */
  function U32(x: int): nat {
    x % TWO32
  }

  lemma U32Fits(x: nat)
    requires x < TWO32
    ensures U32(x) == x
  {
  }
}
