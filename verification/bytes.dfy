/**
 * The byte view of the debugged process's memory, which `find_fake_fast` and
 * `vis_heap_chunks` (lib/heap.py) read directly, and the decoding of a
 * pointer-sized word with the target's byte order (`struct.unpack` with `<`
 * or `>` and `I` or `Q`, and `pwndbg.arch.unpack`).
 */
module Bytes {

  type byte = b: int | 0 <= b < 256

  datatype Endian = Little | Big

  function Pow256(n: nat): (p: nat)
    ensures p >= 1
  {
    if n == 0 then 1 else 256 * Pow256(n - 1)
  }

  /** Least significant byte first. */
  function DecodeLE(bs: seq<byte>): (v: nat)
    ensures v < Pow256(|bs|)
  {
    if |bs| == 0 then 0
    else
      var rest := DecodeLE(bs[1..]);
      assert rest <= Pow256(|bs| - 1) - 1;
      bs[0] + 256 * rest
  }

  /** Most significant byte first. */
  function DecodeBE(bs: seq<byte>): (v: nat)
    ensures v < Pow256(|bs|)
  {
    if |bs| == 0 then 0
    else
      var front := DecodeBE(bs[..|bs| - 1]);
      assert front <= Pow256(|bs| - 1) - 1;
      front * 256 + bs[|bs| - 1]
  }

  /** The `len` low-order bytes of `n`, least significant first. */
  function EncodeLE(n: nat, len: nat): (bs: seq<byte>)
    ensures |bs| == len
  {
    if len == 0 then [] else [n % 256] + EncodeLE(n / 256, len - 1)
  }

  function Reverse(bs: seq<byte>): (r: seq<byte>)
    ensures |r| == |bs|
    ensures forall i :: 0 <= i < |bs| ==> r[i] == bs[|bs| - 1 - i]
  {
    if |bs| == 0 then [] else Reverse(bs[1..]) + [bs[0]]
  }

  /** Decoding undoes encoding for every value that fits. */
  lemma {:induction false} DecodeEncodeLE(n: nat, len: nat)
    requires n < Pow256(len)
    ensures DecodeLE(EncodeLE(n, len)) == n
  {
    if len > 0 {
      DecodeEncodeLE(n / 256, len - 1);
      assert EncodeLE(n, len)[1..] == EncodeLE(n / 256, len - 1);
    }
  }

  /** Encoding undoes decoding: a byte string is determined by its value and length. */
  lemma {:induction false} EncodeDecodeLE(bs: seq<byte>)
    ensures EncodeLE(DecodeLE(bs), |bs|) == bs
  {
    if |bs| > 0 {
      var rest := DecodeLE(bs[1..]);
      assert (bs[0] + 256 * rest) % 256 == bs[0];
      assert (bs[0] + 256 * rest) / 256 == rest;
      EncodeDecodeLE(bs[1..]);
      assert bs == [bs[0]] + bs[1..];
    }
  }

  /** Big-endian decoding is little-endian decoding of the reversed bytes. */
  lemma {:induction false} DecodeBEReversed(bs: seq<byte>)
    ensures DecodeBE(bs) == DecodeLE(Reverse(bs))
  {
    if |bs| > 0 {
      var front := bs[..|bs| - 1];
      DecodeBEReversed(front);
      var r := Reverse(bs);
      assert r[1..] == Reverse(front);
      assert r[0] == bs[|bs| - 1];
    }
  }

  /** The unsigned word the bytes encode in the given byte order. */
  function Word(e: Endian, bs: seq<byte>): (v: nat)
    ensures v < Pow256(|bs|)
  {
    match e
    case Little => DecodeLE(bs)
    case Big => DecodeBE(bs)
  }

  /** The two byte orders agree exactly on byte strings that read the same both ways. */
  lemma {:induction false} WordEndianAgree(bs: seq<byte>)
    ensures Word(Little, bs) == Word(Big, bs) <==> bs == Reverse(bs)
  {
    DecodeBEReversed(bs);
    EncodeDecodeLE(bs);
    EncodeDecodeLE(Reverse(bs));
  }

  /** `memory.read(a, n)`: `n` bytes from `a`, as a function of the byte memory. */
  function Read(byteAt: int -> byte, a: int, n: nat): (bs: seq<byte>)
    ensures |bs| == n
    ensures forall i :: 0 <= i < n ==> bs[i] == byteAt(a + i)
  {
    seq(n, i => byteAt(a + i))
  }
}
