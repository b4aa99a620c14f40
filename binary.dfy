/**
 * Fixed-width little-endian integers, the encoding a struct gets when its
 * memory is copied byte by byte into a stream.
 */
module Binary {

  newtype uint8 = x: int | 0 <= x < 0x100
  newtype int32 = x: int | -0x8000_0000 <= x < 0x8000_0000

  /** 256 to the power n: the number of values n bytes can hold. */
  function Pow256(n: nat): (r: nat)
    ensures r > 0
  {
    if n == 0 then 1 else 256 * Pow256(n - 1)
  }

  /** The n lowest bytes of u, least significant first. */
  function EncodeUInt(u: nat, n: nat): (r: seq<uint8>)
    ensures |r| == n
  {
    if n == 0 then [] else [(u % 256) as uint8] + EncodeUInt(u / 256, n - 1)
  }

  /** The unsigned value of a little-endian byte sequence. */
  function DecodeUInt(b: seq<uint8>): (r: nat)
    ensures r < Pow256(|b|)
  {
    if |b| == 0 then 0
    else
      var rest := DecodeUInt(b[1..]);
      assert rest + 1 <= Pow256(|b| - 1);
      assert 256 * (rest + 1) <= 256 * Pow256(|b| - 1);
      b[0] as nat + 256 * rest
  }

  lemma {:induction false} DecodeEncodeUInt(u: nat, n: nat)
    requires u < Pow256(n)
    ensures DecodeUInt(EncodeUInt(u, n)) == u
  {
    if n > 0 {
      var b := EncodeUInt(u, n);
      assert b[1..] == EncodeUInt(u / 256, n - 1);
      assert u / 256 < Pow256(n - 1);
      DecodeEncodeUInt(u / 256, n - 1);
    }
  }

  lemma {:induction false} EncodeDecodeUInt(b: seq<uint8>)
    ensures EncodeUInt(DecodeUInt(b), |b|) == b
  {
    if |b| > 0 {
      var d := DecodeUInt(b[1..]);
      var u := DecodeUInt(b);
      assert u == b[0] as nat + 256 * d;
      assert u % 256 == b[0] as nat && u / 256 == d;
      EncodeDecodeUInt(b[1..]);
      assert b == [b[0]] + b[1..];
    }
  }

  lemma Pow256Of4()
    ensures Pow256(4) == 0x1_0000_0000
  {
  }

  /** Two's complement, four bytes, least significant first. */
  function EncodeInt32(x: int32): (r: seq<uint8>)
    ensures |r| == 4
  {
    EncodeUInt(if x < 0 then x as int + 0x1_0000_0000 else x as int, 4)
  }

  function DecodeInt32(b: seq<uint8>): (r: int32)
    requires |b| == 4
  {
    var u := DecodeUInt(b);
    Pow256Of4();
    if u < 0x8000_0000 then u as int32 else (u - 0x1_0000_0000) as int32
  }

  /** Every 32-bit integer survives encoding and decoding. */
  lemma Int32RoundTrip(x: int32)
    ensures DecodeInt32(EncodeInt32(x)) == x
  {
    Pow256Of4();
    DecodeEncodeUInt(if x < 0 then x as int + 0x1_0000_0000 else x as int, 4);
  }

  /** Every four-byte block is the encoding of the integer it decodes to. */
  lemma Int32Onto(b: seq<uint8>)
    requires |b| == 4
    ensures EncodeInt32(DecodeInt32(b)) == b
  {
    Pow256Of4();
    EncodeDecodeUInt(b);
  }
}
