/** Fixed-width unsigned integers and their big-endian byte strings. */
module Bytes {

  type byte = b: int | 0 <= b < 0x100
  type u16 = n: int | 0 <= n < 0x1_0000
  type u32 = n: int | 0 <= n < 0x1_0000_0000
  type u64 = n: int | 0 <= n < 0x1_0000_0000_0000_0000

  type i32 = n: int | -0x8000_0000 <= n < 0x8000_0000
  type Block16 = s: seq<byte> | |s| == 16 witness [0, 0, 0, 0, 0, 0, 0, 0, 0, 0, 0, 0, 0, 0, 0, 0]
  type Block32 = s: seq<byte> | |s| == 32 witness seq(32, _ => 0)

  /** ASCII 0x20 to 0x7e throughout. */
  predicate Printable(s: seq<byte>) {
    forall i | 0 <= i < |s| :: 0x20 <= s[i] <= 0x7e
  }

  function Pow256(width: nat): (p: nat)
    ensures p > 0
  {
    if width == 0 then 1 else 256 * Pow256(width - 1)
  }

  /** The low `width` bytes of `value`, most significant first. */
  function ToBytes(value: nat, width: nat): (s: seq<byte>)
    ensures |s| == width
  {
    if width == 0 then [] else ToBytes(value / 256, width - 1) + [value % 256]
  }

  function ToNat(s: seq<byte>): (n: nat)
    ensures n < Pow256(|s|)
  {
    if s == [] then 0
    else
      var high := ToNat(s[..|s| - 1]);
      assert high + 1 <= Pow256(|s| - 1);
      high * 256 + s[|s| - 1]
  }

  lemma Widths()
    ensures Pow256(1) == 0x100
    ensures Pow256(2) == 0x1_0000
    ensures Pow256(4) == 0x1_0000_0000
    ensures Pow256(8) == 0x1_0000_0000_0000_0000
  {
    assert Pow256(3) == 0x100_0000;
    assert Pow256(5) == 0x100_0000_0000;
    assert Pow256(6) == 0x1_0000_0000_0000;
    assert Pow256(7) == 0x100_0000_0000_0000;
  }

  lemma {:induction false} ToNatOfToBytes(value: nat, width: nat)
    requires value < Pow256(width)
    ensures ToNat(ToBytes(value, width)) == value
  {
    if width != 0 {
      ToNatOfToBytes(value / 256, width - 1);
      assert ToBytes(value, width)[..width - 1] == ToBytes(value / 256, width - 1);
    }
  }

  lemma {:induction false} ToBytesOfToNat(s: seq<byte>)
    ensures ToBytes(ToNat(s), |s|) == s
  {
    if s != [] {
      ToBytesOfToNat(s[..|s| - 1]);
      assert ToNat(s) / 256 == ToNat(s[..|s| - 1]);
    }
  }

  /** Reading what was written, for the widths the wire uses. */
  lemma FieldRoundTrip(value: nat, width: nat)
    requires width in {2, 4, 8}
    requires width == 2 ==> value < 0x1_0000
    requires width == 4 ==> value < 0x1_0000_0000
    requires width == 8 ==> value < 0x1_0000_0000_0000_0000
    ensures ToNat(ToBytes(value, width)) == value
  {
    Widths();
    ToNatOfToBytes(value, width);
  }

  function U16At(s: seq<byte>, at: nat): (v: u16)
    requires at + 2 <= |s|
  {
    Widths();
    ToNat(s[at..at + 2])
  }

  function U32At(s: seq<byte>, at: nat): (v: u32)
    requires at + 4 <= |s|
  {
    Widths();
    ToNat(s[at..at + 4])
  }

  function U64At(s: seq<byte>, at: nat): (v: u64)
    requires at + 8 <= |s|
  {
    Widths();
    ToNat(s[at..at + 8])
  }

  /** Two's complement reading of an unsigned 32-bit or 64-bit value. */
  function Signed32(v: u32): (i: i32)
    ensures (i - v) % 0x1_0000_0000 == 0
  {
    if v < 0x8000_0000 then v else v - 0x1_0000_0000
  }

  function Signed64(v: u64): (i: int)
    ensures -0x8000_0000_0000_0000 <= i < 0x8000_0000_0000_0000
    ensures (i - v) % 0x1_0000_0000_0000_0000 == 0
  {
    if v < 0x8000_0000_0000_0000 then v else v - 0x1_0000_0000_0000_0000
  }

  /** static_cast to an unsigned 32-bit value. */
  function Unsigned32(i: int): (v: u32)
    ensures (v - i) % 0x1_0000_0000 == 0
  {
    i % 0x1_0000_0000
  }

  function Unsigned64(i: int): (v: u64)
    ensures (v - i) % 0x1_0000_0000_0000_0000 == 0
  {
    i % 0x1_0000_0000_0000_0000
  }

  function Signed16(v: u16): int {
    if v < 0x8000 then v else v - 0x1_0000
  }

  lemma SignedRoundTrip(i: i32)
    ensures Signed32(Unsigned32(i)) == i
  {
  }

  lemma UnsignedRoundTrip(v: u32)
    ensures Unsigned32(Signed32(v)) == v
  {
  }

  lemma UnsignedRoundTrip64(v: u64)
    ensures Unsigned64(Signed64(v)) == v
  {
  }

  lemma DivideTwice(a: nat, b: nat)
    requires b > 0
    ensures a / b / 256 == a / (256 * b)
  {
    var q2, r2 := a / b / 256, a / b % 256;
    Distribute(b, q2, r2);
    Scale(b, r2);
    QuotientIs(a, 256 * b, q2, b * r2 + a % b);
  }

  lemma Distribute(b: nat, q: nat, r: nat)
    ensures b * (256 * q + r) == (256 * b) * q + b * r
  {
  }

  lemma Scale(b: nat, r: nat)
    requires r < 256
    ensures 0 <= b * r <= 255 * b
  {
  }

  lemma QuotientIs(a: nat, b: nat, q: nat, r: nat)
    requires b > 0 && r < b && a == b * q + r
    ensures a / b == q
  {
    var d := a / b - q;
    assert b * d == r - a % b;
    assert d >= 1 ==> b * d >= b;
    assert d <= -1 ==> b * d <= b * -1;
  }

  /** The source's shift loop: one byte per iteration, from the top byte down. */
  method PutU64(out: seq<byte>, value: u64) returns (r: seq<byte>)
    ensures r == out + ToBytes(value, 8)
  {
    r := out;
    var shift := 8;
    assert value / Pow256(8) == 0 by { Widths(); }
    assert ToBytes(0, 0) == [];
    while shift > 0
      invariant 0 <= shift <= 8
      invariant r == out + ToBytes(value / Pow256(shift), 8 - shift)
    {
      shift := shift - 1;
      DivideTwice(value, Pow256(shift));
      r := r + [value / Pow256(shift) % 256];
    }
  }

  method GetU64(data: seq<byte>, at: nat) returns (value: u64)
    requires at + 8 <= |data|
    ensures value == U64At(data, at)
  {
    value := 0;
    Widths();
    var i := 0;
    while i < 8
      invariant 0 <= i <= 8
      invariant value == ToNat(data[at..at + i])
    {
      assert data[at..at + i + 1][..i] == data[at..at + i];
      assert ToNat(data[at..at + i + 1]) < Pow256(i + 1) <= Pow256(8) by { PowMonotone(i + 1, 8); }
      value := value * 256 + data[at + i];
      i := i + 1;
    }
  }

  lemma {:induction false} PowMonotone(a: nat, b: nat)
    requires a <= b
    ensures Pow256(a) <= Pow256(b)
    decreases b
  {
    if a < b {
      PowMonotone(a, b - 1);
    }
  }
}
