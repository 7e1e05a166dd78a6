/** Bytes and 32-bit words in both byte orders, as struct.pack writes them. */
module Bytes {

  newtype Byte = b: int | 0 <= b < 256

  const WORD: int := 0x1_0000_0000

  /** data[from:to] */
  function Cut(data: seq<Byte>, from: nat, to: nat): seq<Byte>
    requires from <= to
  {
    if |data| <= from then [] else if |data| <= to then data[from..] else data[from..to]
  }

  /** struct.pack("<I", x) */
  function Pack(x: nat): (bytes: seq<Byte>)
    requires x < WORD
    ensures |bytes| == 4
  {
    [(x % 256) as Byte, (x / 256 % 256) as Byte, (x / 65536 % 256) as Byte, (x / 16777216) as Byte]
  }

  function Unpack(bytes: seq<Byte>): (x: nat)
    requires |bytes| == 4
    ensures x < WORD
  {
    bytes[0] as int + 256 * bytes[1] as int + 65536 * bytes[2] as int + 16777216 * bytes[3] as int
  }

  lemma {:induction false} PackUnpacks(x: nat)
    requires x < WORD
    ensures Unpack(Pack(x)) == x
  {
    assert x / 65536 == x / 256 / 256 && x / 16777216 == x / 65536 / 256;
  }

  /** struct.pack(">I", x) */
  function PackBig(x: nat): (bytes: seq<Byte>)
    requires x < WORD
    ensures |bytes| == 4
  {
    var b := Pack(x);
    [b[3], b[2], b[1], b[0]]
  }

  function UnpackBig(bytes: seq<Byte>): (x: nat)
    requires |bytes| == 4
    ensures x < WORD
  {
    Unpack([bytes[3], bytes[2], bytes[1], bytes[0]])
  }

  lemma {:induction false} PackBigUnpacks(x: nat)
    requires x < WORD
    ensures UnpackBig(PackBig(x)) == x
  {
    var b := Pack(x);
    assert [b[0], b[1], b[2], b[3]] == b;
    PackUnpacks(x);
  }

  // ---------------------------------------------------------------- bits

  /** x >> k & 1 */
  predicate BitOf(x: nat, k: nat) {
    if k == 0 then x % 2 == 1 else BitOf(x / 2, k - 1)
  }

  /** x | 1 << k */
  function WithBit(x: nat, k: nat): nat {
    if k == 0 then x - x % 2 + 1 else 2 * WithBit(x / 2, k - 1) + x % 2
  }

  function Power(n: nat): nat {
    if n == 0 then 1 else 2 * Power(n - 1)
  }

  lemma {:induction false} WithBitFits(x: nat, k: nat, n: nat)
    requires x < Power(n) && k < n
    ensures WithBit(x, k) < Power(n)
  {
    if k > 0 {
      WithBitFits(x / 2, k - 1, n - 1);
    }
  }

  lemma {:induction false} WithBitSets(x: nat, k: nat, j: nat)
    ensures BitOf(WithBit(x, k), j) == (j == k || BitOf(x, j))
  {
    if k > 0 && j > 0 {
      WithBitSets(x / 2, k - 1, j - 1);
    }
  }

  /** Bit i of a bitmap. */
  predicate Bit(bits: seq<Byte>, i: nat)
    requires i / 8 < |bits|
  {
    BitOf(bits[i / 8] as nat, i % 8)
  }

  function SetBit(bits: seq<Byte>, i: nat): (bits': seq<Byte>)
    requires i / 8 < |bits|
    ensures |bits'| == |bits|
  {
    assert Power(8) == 256 by { assert Power(2) == 4 && Power(4) == 16 && Power(6) == 64; }
    WithBitFits(bits[i / 8] as nat, i % 8, 8);
    bits[i / 8 := WithBit(bits[i / 8] as nat, i % 8) as Byte]
  }

  lemma {:induction false} SetBitSets(bits: seq<Byte>, i: nat, j: nat)
    requires i / 8 < |bits| && j / 8 < |bits|
    ensures Bit(SetBit(bits, i), j) == (j == i || Bit(bits, j))
  {
    WithBitSets(bits[i / 8] as nat, i % 8, j % 8);
  }

  lemma {:induction false} ClearBits(bits: seq<Byte>, i: nat)
    requires i / 8 < |bits| && bits[i / 8] == 0
    ensures !Bit(bits, i)
  {
    NoBit(i % 8);
  }

  lemma {:induction false} NoBit(k: nat)
    ensures !BitOf(0, k)
  {
    if k > 0 {
      NoBit(k - 1);
    }
  }
}
