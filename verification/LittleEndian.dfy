// Bytes, and little-endian numbers as the state and bank files store them.
module LittleEndian {

  type byte = x: int | 0 <= x < 0x100
  type uint32 = x: int | 0 <= x < 0x1_0000_0000
  type Bytes = seq<byte>

  /** The lowest n bytes of a number, least significant first. */
  function Encoded(v: nat, n: nat): (r: Bytes)
    ensures |r| == n
  {
    if n == 0 then [] else [v % 0x100] + Encoded(v / 0x100, n - 1)
  }

  function Decoded(s: Bytes): nat {
    if s == [] then 0 else s[0] + 0x100 * Decoded(s[1..])
  }

  function Radix(n: nat): nat { if n == 0 then 1 else 0x100 * Radix(n - 1) }

  /** A number that fits comes back. */
  lemma {:induction false} DecodedEncoded(v: nat, n: nat)
    requires v < Radix(n)
    ensures Decoded(Encoded(v, n)) == v
  {
    if n > 0 {
      DecodedEncoded(v / 0x100, n - 1);
      assert Encoded(v, n)[1..] == Encoded(v / 0x100, n - 1);
    }
  }

  /** Every byte string is the encoding of the number it decodes to. */
  lemma {:induction false} EncodedDecoded(s: Bytes)
    ensures Decoded(s) < Radix(|s|) && Encoded(Decoded(s), |s|) == s
  {
    if s != [] {
      EncodedDecoded(s[1..]);
      assert s == [s[0]] + s[1..];
    }
  }

  function U32(v: nat): (r: Bytes)
    ensures |r| == 4
  {
    Encoded(v, 4)
  }

  function GetU32(s: Bytes): (v: uint32)
    requires |s| >= 4
  {
    EncodedDecoded(s[..4]);
    assert Radix(4) == 0x1_0000_0000;
    Decoded(s[..4])
  }

  lemma {:induction false} GetU32OfU32(v: uint32, rest: Bytes)
    ensures GetU32(U32(v) + rest) == v
  {
    DecodedEncoded(v, 4);
    assert (U32(v) + rest)[..4] == U32(v);
  }

  /** Reading four bytes with shifts, as the decoders do. */
  lemma {:induction false} GetU32IsShifts(s: Bytes)
    requires |s| >= 4
    ensures GetU32(s) == s[0] as int + 0x100 * s[1] as int + 0x1_0000 * s[2] as int + 0x100_0000 * s[3] as int
  {
    var t := s[..4];
    assert t[1..][1..] == t[2..] && t[2..][1..] == t[3..] && t[3..][1..] == [];
    assert Decoded(t[3..]) == t[3];
    assert Decoded(t[2..]) == t[2] as int + 0x100 * Decoded(t[3..]);
    assert Decoded(t[1..]) == t[1] as int + 0x100 * Decoded(t[2..]);
  }

  /** Appends a number the way the writers do, one shifted byte at a time. */
  method PutU32(out: Bytes, v: uint32) returns (r: Bytes)
    ensures r == out + U32(v)
  {
    r := out;
    var shifted: nat := v;
    for i := 0 to 4
      invariant r + Encoded(shifted, 4 - i) == out + U32(v)
    {
      assert Encoded(shifted, 4 - i) == [shifted % 0x100] + Encoded(shifted / 0x100, 4 - i - 1);
      r := r + [shifted % 0x100];
      shifted := shifted / 0x100;
    }
    assert r + Encoded(shifted, 0) == r;
  }
}
