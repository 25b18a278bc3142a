/** Bytes on the wire, and the bits they are made of. */
module ByteStrings {

  type Byte = b: int | 0 <= b < 256

  type Bytes = seq<Byte>

  /** The n low bits of a number, most significant first. */
  function LowBits(v: nat, n: nat): (r: seq<bool>)
    ensures |r| == n
  {
    if n == 0 then [] else LowBits(v / 2, n - 1) + [v % 2 == 1]
  }

  function Power(n: nat): nat { if n == 0 then 1 else 2 * Power(n - 1) }

  function Pack(s: seq<bool>): (r: nat)
    ensures r < Power(|s|)
  {
    if s == [] then 0 else 2 * Pack(s[..|s| - 1]) + if s[|s| - 1] then 1 else 0
  }

  lemma {:induction false} PackedBits(s: seq<bool>)
    ensures LowBits(Pack(s), |s|) == s
  {
    if s != [] {
      PackedBits(s[..|s| - 1]);
    }
  }

  function Bits8(b: Byte): (r: seq<bool>)
    ensures |r| == 8
  {
    LowBits(b, 8)
  }

  function Pack8(s: seq<bool>): Byte
    requires |s| == 8
  {
    assert Power(8) == 256 by {
      assert Power(4) == 16;
    }
    Pack(s)
  }

  function BitsOf(s: Bytes): (r: seq<bool>)
    ensures |r| == 8 * |s|
  {
    if s == [] then [] else Bits8(s[0]) + BitsOf(s[1..])
  }

  function BytesOf(bits: seq<bool>): (r: Bytes)
    requires |bits| % 8 == 0
    ensures 8 * |r| == |bits|
  {
    if bits == [] then [] else [Pack8(bits[..8])] + BytesOf(bits[8..])
  }

  lemma {:induction false} BytesOfBits(bits: seq<bool>)
    requires |bits| % 8 == 0
    ensures BitsOf(BytesOf(bits)) == bits
  {
    if bits != [] {
      PackedBits(bits[..8]);
      BytesOfBits(bits[8..]);
      assert BytesOf(bits)[1..] == BytesOf(bits[8..]);
      assert bits == bits[..8] + bits[8..];
    }
  }

  /** Two bytes, most significant first. */
  function Uint16(s: Bytes, p: nat): (r: nat)
    requires p + 2 <= |s|
    ensures r < 65536
  {
    (s[p] as int) * 256 + s[p + 1]
  }

  function Put16(n: nat): (r: Bytes)
    requires n < 65536
    ensures |r| == 2 && Uint16(r, 0) == n
  {
    [n / 256, n % 256]
  }
}
