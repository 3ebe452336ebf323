/** Byte strings, fixed-size digests, the hash function and little-endian integers. */
module Bytes {
  newtype byte = x: int | 0 <= x < 256

  type Bytes = seq<byte>

  type Digest = s: seq<byte> | |s| == 32 witness seq(32, _ => 0)

  /** SHA-256 (section 6.2 of FIPS 180-4) as an arbitrary total function onto 32 bytes.  Nothing
      is known about it: in particular it is not assumed to be injective. */
  const Sum256: Bytes -> Digest

  /** `x` and `y` are an explicit collision. */
  predicate Collision(x: Bytes, y: Bytes) {
    x != y && Sum256(x) == Sum256(y)
  }

  function Pow2(n: nat): (p: nat)
    ensures p > 0
  {
    if n == 0 then 1 else 2 * Pow2(n - 1)
  }

  lemma {:induction false} Pow2Monotone(m: nat, n: nat)
    requires m <= n
    ensures Pow2(m) <= Pow2(n)
  {
    if m < n {
      Pow2Monotone(m, n - 1);
    }
  }

  /** Truncation of a Go expression to `uint8`; `%` is Euclidean, so this is also right below zero. */
  function U8(x: int): (r: nat)
    ensures r < 256
    ensures 0 <= x < 256 ==> r == x
  {
    x % 256
  }

  const TWO_TO_THE_64 := 0x1_0000_0000_0000_0000

  function U64(x: int): (r: nat)
    ensures r < TWO_TO_THE_64
    ensures 0 <= x < TWO_TO_THE_64 ==> r == x
  {
    x % TWO_TO_THE_64
  }

  function Zeros(n: nat): (s: Bytes)
    ensures |s| == n
  {
    seq(n, _ => 0)
  }

  /** `width` little-endian bytes of `x`, as `binary.LittleEndian.PutUint*` writes them. */
  function LittleEndian(x: nat, width: nat): (s: Bytes)
    ensures |s| == width
  {
    if width == 0 then [] else [(x % 256) as byte] + LittleEndian(x / 256, width - 1)
  }

  function FromLittleEndian(s: Bytes): nat {
    if s == [] then 0 else s[0] as nat + 256 * FromLittleEndian(s[1..])
  }

  function Pow256(n: nat): (p: nat)
    ensures p > 0
  {
    if n == 0 then 1 else 256 * Pow256(n - 1)
  }

  lemma {:induction false} LittleEndianRoundTrip(x: nat, width: nat)
    requires x < Pow256(width)
    ensures FromLittleEndian(LittleEndian(x, width)) == x
  {
    if width > 0 {
      LittleEndianRoundTrip(x / 256, width - 1);
      assert LittleEndian(x, width)[1..] == LittleEndian(x / 256, width - 1);
    }
  }

  lemma {:induction false} FromLittleEndianBound(s: Bytes)
    ensures FromLittleEndian(s) < Pow256(|s|)
  {
    if s != [] {
      FromLittleEndianBound(s[1..]);
    }
  }

  datatype Option<+T> = None | Some(value: T)

  /** `copy(buf[at:at+len(src)], src)`. */
  method CopyInto(buf: array<byte>, at: nat, src: Bytes)
    requires at + |src| <= buf.Length
    modifies buf
    ensures buf[..] == old(buf[..at]) + src + old(buf[at + |src|..])
  {
    for i := 0 to |src|
      invariant buf[..] == old(buf[..at]) + src[..i] + old(buf[at + i..])
    {
      buf[at + i] := src[i];
    }
  }
}
