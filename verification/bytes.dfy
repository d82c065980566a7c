/** The Python primitives the interpreter applies to the disk buffer:
    slicing, `struct.unpack`, `bytes.decode`, `str.rstrip` and `bytes.index`. */
module Bytes {
  import opened Outcomes

  type byte = b: int | 0 <= b < 256

  const Newline: byte := 0x0A

  /** Python's normalisation of one slice bound for a sequence of length n:
      a negative bound counts from the end, and the result is clamped to [0, n]. */
  function ClampBound(i: int, n: nat): (r: nat)
    ensures r <= n
    ensures 0 <= i ==> r == if i <= n then i else n
    ensures -(n as int) <= i < 0 ==> r == n + i
  {
    if i < 0 then (if i + n < 0 then 0 else i + n)
    else if i > n then n
    else i
  }

  /** `s[lo:hi]` with Python's semantics for a step of one. */
  function Slice(s: seq<byte>, lo: int, hi: int): (r: seq<byte>)
    ensures |r| <= |s|
    ensures 0 <= lo <= hi <= |s| ==> r == s[lo..hi]
    ensures 0 <= lo <= hi ==> |r| == (if hi <= |s| then hi - lo else if lo <= |s| then |s| - lo else 0)
    ensures 0 <= lo ==> forall k :: 0 <= k < |r| ==> lo + k < |s| && r[k] == s[lo + k]
  {
    var a := ClampBound(lo, |s|);
    var b := ClampBound(hi, |s|);
    if b <= a then [] else s[a..b]
  }

  /** `struct.unpack('<H', s)[0]`: exactly two bytes, least significant first. */
  function U16(s: seq<byte>): (r: Result<int>)
    ensures r.Success? <==> |s| == 2
    ensures r.Failure? ==> r.error == ShortRead
    ensures r.Success? ==> 0 <= r.value < 0x1_0000 && r.value % 256 == s[0] && r.value / 256 == s[1]
  {
    if |s| != 2 then Failure(ShortRead) else Success(s[0] as int + 256 * s[1] as int)
  }

  /** `struct.unpack('<b', s)[0]`: exactly one byte, read as two's complement. */
  function S8(s: seq<byte>): (r: Result<int>)
    ensures r.Success? <==> |s| == 1
    ensures r.Failure? ==> r.error == ShortRead
    ensures r.Success? ==> -128 <= r.value < 128 && r.value % 256 == s[0]
  {
    if |s| != 1 then Failure(ShortRead)
    else if s[0] < 0x80 then Success(s[0] as int)
    else Success(s[0] as int - 256)
  }

  predicate IsAscii(s: seq<byte>) {
    forall k :: 0 <= k < |s| ==> s[k] < 0x80
  }

  /** `s.decode('utf-8')`, restricted to ASCII: any byte of 0x80 or above
      is reported as a decode error. The decoded text is kept as bytes. */
  function Decode(s: seq<byte>): (r: Result<seq<byte>>)
    ensures r.Success? <==> IsAscii(s)
    ensures r.Failure? ==> r.error == DecodeError
    ensures r.Success? ==> r.value == s
  {
    if IsAscii(s) then Success(s) else Failure(DecodeError)
  }

  /** The ASCII characters for which Python's `str.isspace()` holds. */
  predicate IsSpace(b: byte) {
    9 <= b <= 13 || 28 <= b <= 32
  }

  /** `str.rstrip()` on ASCII text: the longest prefix not ending in whitespace. */
  function RStrip(s: seq<byte>): (r: seq<byte>)
    ensures r <= s
    ensures |r| > 0 ==> !IsSpace(r[|r| - 1])
    ensures forall k :: |r| <= k < |s| ==> IsSpace(s[k])
  {
    if |s| > 0 && IsSpace(s[|s| - 1]) then RStrip(s[..|s| - 1]) else s
  }

  /** `s.index(10)`: the position of the first newline byte, or ValueError. */
  function LineEnd(s: seq<byte>): (r: Result<nat>)
    ensures r.Success? <==> Newline in s
    ensures r.Failure? ==> r.error == NoNewline
    ensures r.Success? ==> r.value < |s| && s[r.value] == Newline && Newline !in s[..r.value]
  {
    if |s| == 0 then Failure(NoNewline)
    else if s[0] == Newline then Success(0)
    else
      match LineEnd(s[1..])
      case Success(i) => assert s[1..][..i] == s[1..i + 1]; Success(i + 1)
      case Failure(e) => Failure(e)
  }
}
