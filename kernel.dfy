/**
 * Kernel virtual memory as the provider's ReadKernelVM / WriteKernelVM
 * callbacks see it: a partial map from 64-bit addresses to bytes. A transfer
 * of `n` bytes at `a` touches a, a + 1, ..., a + n - 1, and is possible only
 * when all of them are mapped.
 */
module Kernel {

  import opened Base
  import opened Bits
  import opened Codec

  type Memory = map<Addr, byte>

  /** All `n` bytes at `a` are mapped (a transfer never wraps past the top of the address space). */
  predicate Mapped(m: Memory, a: Addr, n: nat) {
    a + n <= 0x1_0000_0000_0000_0000 && forall x :: a <= x < a + n ==> x in m
  }

  predicate InRange(a: Addr, n: nat, x: int) {
    a <= x < a + n
  }

  /** The bytes a read of `n` bytes at `a` transfers, in address order. */
  function ReadBytes(m: Memory, a: Addr, n: nat): (bytes: seq<byte>)
    requires Mapped(m, a, n)
    ensures |bytes| == n
    ensures forall i :: 0 <= i < n ==> bytes[i] == m[a + i]
  {
    if n == 0 then [] else ReadBytes(m, a, n - 1) + [m[a + n - 1]]
  }

  /**
   * The memory after a write of `bytes` at `a`: byte i of the buffer is at
   * a + i, the mapped addresses are the same, and every other address keeps
   * its byte.
   */
  function WriteBytes(m: Memory, a: Addr, bytes: seq<byte>): (m': Memory)
    requires Mapped(m, a, |bytes|)
    ensures m'.Keys == m.Keys
    ensures forall i :: 0 <= i < |bytes| ==> m'[a + i] == bytes[i]
    ensures forall x :: x in m && !InRange(a, |bytes|, x) ==> m'[x] == m[x]
  {
    if bytes == [] then m
    else
      var n := |bytes| - 1;
      WriteBytes(m, a, bytes[..n])[a + n := bytes[n]]
  }

  /**
   * The memory after a write of `n` bytes at `a` that failed: the provider may
   * have stored part of it, so the `n` bytes hold `leftAs`. Nothing changes
   * when they are not all mapped, or `leftAs` does not have `n` bytes.
   */
  function FailedWrite(m: Memory, a: Addr, n: nat, leftAs: seq<byte>): Memory {
    if Mapped(m, a, n) && |leftAs| == n then WriteBytes(m, a, leftAs) else m
  }

  /** A failed write changes at most the `n` bytes it was aimed at. */
  lemma FailedWriteStaysInRange(m: Memory, a: Addr, n: nat, leftAs: seq<byte>)
    ensures FailedWrite(m, a, n, leftAs).Keys == m.Keys
    ensures forall x :: x in m && !InRange(a, n, x) ==> FailedWrite(m, a, n, leftAs)[x] == m[x]
  {
  }

  /** A read of the bytes just written returns them. */
  lemma {:induction false} ReadAfterWrite(m: Memory, a: Addr, bytes: seq<byte>)
    requires Mapped(m, a, |bytes|)
    ensures Mapped(WriteBytes(m, a, bytes), a, |bytes|)
    ensures ReadBytes(WriteBytes(m, a, bytes), a, |bytes|) == bytes
  {
  }

  // ---------------------------------------------------------------------------
  // The ULONG buffer and its four bytes (little-endian: byte 0 holds bits 0-7)

  /** The buffer word that four bytes read into a ULONG make. */
  function WordOf(bytes: seq<byte>): (w: Word)
    requires |bytes| == 4
  {
    ToBits(bytes[0], 8) + ToBits(bytes[1], 8) + ToBits(bytes[2], 8) + ToBits(bytes[3], 8)
  }

  /** The four bytes a ULONG buffer is written as; reading them back gives the word. */
  function BytesOf(w: Word): (bytes: seq<byte>)
    ensures |bytes| == 4
  {
    [FromBits(w[0..8]), FromBits(w[8..16]), FromBits(w[16..24]), FromBits(w[24..32])]
  }

  /** Reading back the four bytes of a word gives the word. */
  lemma WordOfBytesOf(w: Word)
    ensures WordOf(BytesOf(w)) == w
  {
    var s0, s1, s2, s3 := w[0..8], w[8..16], w[16..24], w[24..32];
    var b := BytesOf(w);
    ToFromBits(s0);
    ToFromBits(s1);
    ToFromBits(s2);
    ToFromBits(s3);
    assert ToBits(b[0], 8) == s0 && ToBits(b[1], 8) == s1 && ToBits(b[2], 8) == s2 && ToBits(b[3], 8) == s3;
    SplitInBytes(w);
  }

  /** A 32-element sequence is its four 8-element slices in order. */
  lemma SplitInBytes<T>(w: seq<T>)
    requires |w| == 32
    ensures w == w[0..8] + w[8..16] + w[16..24] + w[24..32]
  {
  }

  /** Writing out the word four bytes make gives the same four bytes. */
  lemma {:induction false} BytesOfWordOf(bytes: seq<byte>)
    requires |bytes| == 4
    ensures BytesOf(WordOf(bytes)) == bytes
  {
    var w := WordOf(bytes);
    forall i | 0 <= i < 4 ensures BytesOf(w)[i] == bytes[i] {
      assert w[8 * i..8 * i + 8] == ToBits(bytes[i], 8);
      FromToBits(bytes[i], 8);
      LowBitsOfSmaller(bytes[i], 8);
    }
  }
}
