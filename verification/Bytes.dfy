/** Little-endian fields and bitmaps inside raw byte buffers: what the C code gets for
    free from packed structs, pointer casts and shifts. */
module Bytes {
  import opened Words

  type Byte = x: int | 0 <= x < 256
  type Buf = seq<Byte>

  /** x + 1 in an unsigned field that wraps at lim */
  function Inc(x: nat, lim: nat): (r: nat)
    requires x < lim
    ensures r < lim && (r == x + 1 || (r == 0 && x + 1 == lim))
  {
    if x + 1 == lim then 0 else x + 1
  }

  /** memset(buf, 0, n) */
  function Zeros(n: nat): (r: Buf)
    ensures |r| == n
    ensures forall k :: 0 <= k < n ==> r[k] == 0
  {
    seq(n, _ => 0)
  }

  function Get16(b: Buf, o: nat): (v: nat)
    requires o + 2 <= |b|
    ensures v < U16
  {
    b[o] as int + 256 * b[o+1] as int
  }

  function Get32(b: Buf, o: nat): (v: nat)
    requires o + 4 <= |b|
    ensures v < U32
  {
    b[o] as int + 256 * b[o+1] as int + 0x1_0000 * b[o+2] as int + 0x100_0000 * b[o+3] as int
  }

  /** memcpy(b + o, src, |src|) */
  function Splice(b: Buf, o: nat, src: Buf): (r: Buf)
    requires o + |src| <= |b|
    ensures |r| == |b|
    ensures forall k :: 0 <= k < |b| ==> r[k] == if o <= k < o + |src| then src[k-o] else b[k]
  {
    b[..o] + src + b[o+|src|..]
  }

  /** The four bytes from o on, low byte first. */
  ghost function Word32(b: Buf, o: nat): nat
    requires o + 4 <= |b|
  {
    b[o] as int + 0x100 * (b[o + 1] as int + 0x100 * (b[o + 2] as int + 0x100 * b[o + 3] as int))
  }

  function Put16(b: Buf, o: nat, v: nat): (r: Buf)
    requires o + 2 <= |b| && v < U16
    ensures |r| == |b|
    ensures Get16(r, o) == v
    ensures forall k :: 0 <= k < |b| && !(o <= k < o + 2) ==> r[k] == b[k]
  {
    b[o := v % 256][o+1 := v / 256]
  }

  function Put32(b: Buf, o: nat, v: nat): (r: Buf)
    requires o + 4 <= |b| && v < U32
    ensures |r| == |b|
    ensures Get32(r, o) == v
    ensures forall k :: 0 <= k < |b| && !(o <= k < o + 4) ==> r[k] == b[k]
  {
    Digits32(v);
    b[o := v % 256][o+1 := v / 256 % 256][o+2 := v / 0x1_0000 % 256][o+3 := v / 0x100_0000]
  }

  /** The four bytes of a 32-bit value. */
  lemma Digits32(v: nat)
    requires v < U32
    ensures v == v % 256 + 256 * (v / 256 % 256) + 0x1_0000 * (v / 0x1_0000 % 256) + 0x100_0000 * (v / 0x100_0000)
    ensures v / 0x100_0000 < 256
  {
    var a, b, c := v / 256, v / 0x1_0000, v / 0x100_0000;
    assert v == 256 * a + v % 256 && a == 256 * b + a % 256 && b == 256 * c + b % 256;
  }

  // ----- bitmaps: bit i lives in byte i / 8, least significant bit first -----

  function Pow2(n: nat): (r: nat)
    ensures r >= 1
  {
    if n == 0 then 1 else 2 * Pow2(n - 1)
  }

  /** (x >> k) & 1 */
  predicate Bit(x: nat, k: nat)
  {
    if k == 0 then x % 2 == 1 else Bit(x / 2, k - 1)
  }

  /** x | (1 << k) */
  function OrBit(x: nat, k: nat, n: nat): (r: nat)
    requires k < n && x < Pow2(n)
    ensures r < Pow2(n)
    ensures forall j: nat {:trigger Bit(r, j)} :: Bit(r, j) == (j == k || Bit(x, j))
  {
    if k == 0 then x / 2 * 2 + 1 else
    var h := OrBit(x / 2, k - 1, n - 1);
    var r := 2 * h + x % 2;
    assert r / 2 == h && r % 2 == x % 2;
    assert forall j: nat {:trigger Bit(r, j)} :: j > 0 ==> Bit(r, j) == Bit(h, j - 1);
    r
  }

  /** x & ~(1 << k) */
  function AndNotBit(x: nat, k: nat, n: nat): (r: nat)
    requires k < n && x < Pow2(n)
    ensures r < Pow2(n)
    ensures forall j: nat {:trigger Bit(r, j)} :: Bit(r, j) == (j != k && Bit(x, j))
  {
    if k == 0 then x / 2 * 2 else
    var h := AndNotBit(x / 2, k - 1, n - 1);
    var r := 2 * h + x % 2;
    assert r / 2 == h && r % 2 == x % 2;
    assert forall j: nat {:trigger Bit(r, j)} :: j > 0 ==> Bit(r, j) == Bit(h, j - 1);
    r
  }

  predicate BitSet(b: Buf, i: nat)
  {
    i / 8 < |b| && Bit(b[i / 8], i % 8)
  }

  function SetBit(b: Buf, i: nat): (r: Buf)
    requires i < 8 * |b|
    ensures |r| == |b|
    ensures forall j: nat :: j < 8 * |b| ==> BitSet(r, j) == (j == i || BitSet(b, j))
  {
    assert Pow2(8) == 256;
    b[i / 8 := OrBit(b[i / 8], i % 8, 8)]
  }

  function ClearBit(b: Buf, i: nat): (r: Buf)
    requires i < 8 * |b|
    ensures |r| == |b|
    ensures forall j: nat :: j < 8 * |b| ==> BitSet(r, j) == (j != i && BitSet(b, j))
  {
    assert Pow2(8) == 256;
    b[i / 8 := AndNotBit(b[i / 8], i % 8, 8)]
  }
}
