/** Little-endian numbers and C strings in byte buffers. */
module ByteStrings {
  type Bytes = seq<int>

  /** A C string's bytes, without the terminator. */
  predicate NulFree(s: Bytes) {
    forall i :: 0 <= i < |s| ==> 0 < s[i] < 256
  }

  function Pow(n: nat): nat { if n == 0 then 1 else 256 * Pow(n - 1) }

  function Little(v: nat, n: nat): (b: Bytes)
    ensures |b| == n
  {
    if n == 0 then [] else [v % 256] + Little(v / 256, n - 1)
  }

  function Value(b: Bytes): int {
    if b == [] then 0 else b[0] + 256 * Value(b[1..])
  }

  lemma {:induction false} WordRoundTrip(v: nat, n: nat)
    requires v < Pow(n)
    ensures Value(Little(v, n)) == v
    decreases n
  {
    if n > 0 {
      WordRoundTrip(v / 256, n - 1);
      assert Little(v, n)[1..] == Little(v / 256, n - 1);
    }
  }

  /** The bytes from off up to a NUL. */
  function CStr(mem: Bytes, off: nat): Bytes
    decreases |mem| - off
  {
    if off >= |mem| || mem[off] == 0 then [] else [mem[off]] + CStr(mem, off + 1)
  }

  /** A NUL-free string reads back as itself. */
  lemma {:induction false} CStrRead(mem: Bytes, off: nat, str: Bytes)
    requires off + |str| < |mem| && mem[off..off + |str|] == str && mem[off + |str|] == 0 && NulFree(str)
    ensures CStr(mem, off) == str
    decreases str
  {
    if str != [] {
      assert mem[off] == str[0];
      assert mem[off + 1..off + 1 + |str[1..]|] == str[1..];
      CStrRead(mem, off + 1, str[1..]);
    }
  }

  /** copy_from_slice. */
  method Copy(dst: array<int>, at: nat, src: Bytes)
    requires at + |src| <= dst.Length
    modifies dst
    ensures forall k :: 0 <= k < dst.Length ==> dst[k] == if at <= k < at + |src| then src[k - at] else old(dst[k])
    ensures dst[..at + |src|] == old(dst[..at]) + src
  {
    forall k | 0 <= k < |src| {
      dst[at + k] := src[k];
    }
  }
}
