/** Octets and the fixed-width big-endian integers of the wire formats. */
module Bytes {

  type byte = x: int | 0 <= x < 256

  const TWO_16: nat := 0x1_0000
  const TWO_32: nat := 0x1_0000_0000
  const TWO_64: nat := 0x1_0000_0000_0000_0000

  /** The values of `std::uint16_t`, `std::uint32_t` and `std::uint64_t`. */
  type u16 = x: int | 0 <= x < TWO_16
  type u32 = x: int | 0 <= x < TWO_32
  type u64 = x: int | 0 <= x < TWO_64

  function Least(a: nat, b: nat): nat { if a < b then a else b }

  function Pow256(k: nat): (p: nat)
    ensures p > 0
  {
    if k == 0 then 1 else 256 * Pow256(k - 1)
  }

  /** The number a big-endian octet string denotes. */
  function Value(s: seq<byte>): nat {
    if s == [] then 0 else 256 * Value(s[..|s| - 1]) + s[|s| - 1]
  }

  /** The `k` least significant base-256 digits of `n`, most significant first. */
  function BigEndian(n: nat, k: nat): (s: seq<byte>)
    ensures |s| == k
  {
    if k == 0 then [] else BigEndian(n / 256, k - 1) + [n % 256]
  }

  /** The same digits, least significant first: what `memcpy` of an integer gives on x86 and ARM Windows. */
  function LittleEndian(n: nat, k: nat): (s: seq<byte>)
    ensures |s| == k
  {
    if k == 0 then [] else [n % 256] + LittleEndian(n / 256, k - 1)
  }

  lemma {:induction false} ValueBound(s: seq<byte>)
    ensures Value(s) < Pow256(|s|)
  {
    if s != [] {
      ValueBound(s[..|s| - 1]);
    }
  }

  lemma ValueSnoc(s: seq<byte>, b: byte)
    ensures Value(s + [b]) == 256 * Value(s) + b
  {
    assert (s + [b])[..|s + [b]| - 1] == s;
  }

  lemma Digits(n: nat, p: nat)
    ensures n < 256 * p ==> n / 256 < p
    ensures n == 256 * (n / 256) + n % 256
  {
  }

  /** Reading what was written gives the number back, for every number that fits. */
  lemma {:induction false} ValueOfBigEndian(n: nat, k: nat)
    requires n < Pow256(k)
    ensures Value(BigEndian(n, k)) == n
  {
    if k != 0 {
      Digits(n, Pow256(k - 1));
      ValueOfBigEndian(n / 256, k - 1);
      ValueSnoc(BigEndian(n / 256, k - 1), n % 256);
    }
  }

  /** Writing what was read gives the octets back, for every octet string. */
  lemma {:induction false} BigEndianOfValue(s: seq<byte>)
    ensures BigEndian(Value(s), |s|) == s
  {
    if s != [] {
      BigEndianOfValue(s[..|s| - 1]);
      assert s == s[..|s| - 1] + [s[|s| - 1]];
    }
  }

  lemma {:induction false} LittleEndianInjective(m: nat, n: nat, k: nat)
    requires m < Pow256(k) && n < Pow256(k)
    requires LittleEndian(m, k) == LittleEndian(n, k)
    ensures m == n
  {
    if k != 0 {
      var s, t := LittleEndian(m, k), LittleEndian(n, k);
      assert s[0] == m % 256 && t[0] == n % 256;
      assert s[1..] == LittleEndian(m / 256, k - 1) && t[1..] == LittleEndian(n / 256, k - 1);
      LittleEndianInjective(m / 256, n / 256, k - 1);
    }
  }

  lemma Powers()
    ensures Pow256(1) == 256 && Pow256(2) == TWO_16 && Pow256(4) == TWO_32 && Pow256(8) == TWO_64
  {
    assert Pow256(1) == 256;
    assert Pow256(2) == 256 * Pow256(1);
    assert Pow256(3) == 256 * Pow256(2);
    assert Pow256(4) == 256 * Pow256(3);
    assert Pow256(5) == 256 * Pow256(4);
    assert Pow256(6) == 256 * Pow256(5);
    assert Pow256(7) == 256 * Pow256(6);
    assert Pow256(8) == 256 * Pow256(7);
  }

  /** `v >> 8i`: dropping the `i` least significant octets. */
  function ShiftRight(v: nat, i: nat): nat {
    if i == 0 then v else ShiftRight(v / 256, i - 1)
  }

  lemma {:induction false} ShiftRightStep(v: nat, i: nat)
    ensures ShiftRight(v, i) / 256 == ShiftRight(v, i + 1)
  {
    if i != 0 {
      ShiftRightStep(v / 256, i - 1);
    }
  }

  lemma {:induction false} ShiftRightAll(v: nat, i: nat)
    requires v < Pow256(i)
    ensures ShiftRight(v, i) == 0
  {
    if i != 0 {
      ShiftRightAll(v / 256, i - 1);
    }
  }

  /** `write_u64_be`: eight octets, from `value >> 56` down to `value >> 0`. */
  method WriteU64(out: seq<byte>, value: u64) returns (res: seq<byte>)
    ensures res == out + BigEndian(value, 8)
  {
    res := out;
    var i := 8;
    Powers();
    ShiftRightAll(value, 8);
    while i > 0
      invariant 0 <= i <= 8
      invariant res == out + BigEndian(ShiftRight(value, i), 8 - i)
    {
      i := i - 1;
      ShiftRightStep(value, i);
      res := res + [ShiftRight(value, i) % 256];
    }
    assert ShiftRight(value, 0) == value;
  }

  /** `write_u16_be`. */
  method WriteU16(out: seq<byte>, value: u16) returns (res: seq<byte>)
    ensures res == out + BigEndian(value, 2)
  {
    res := out + [value / 256 % 256];
    res := res + [value % 256];
    assert BigEndian(value, 2) == BigEndian(value / 256, 1) + [value % 256];
    assert BigEndian(value / 256, 1) == BigEndian(value / 256 / 256, 0) + [value / 256 % 256];
  }

  /** `read_u64_be`: `value = value << 8 | octet`, eight times. */
  method ReadU64(data: seq<byte>, offset: nat) returns (value: u64)
    requires offset + 8 <= |data|
    ensures value == Value(data[offset..offset + 8])
  {
    var v: nat := 0;
    var i := 0;
    while i < 8
      invariant 0 <= i <= 8
      invariant v == Value(data[offset..offset + i])
    {
      var s := data[offset..offset + i + 1];
      assert s[..|s| - 1] == data[offset..offset + i];
      v := 256 * v + data[offset + i];
      i := i + 1;
    }
    ValueBound(data[offset..offset + 8]);
    Powers();
    value := v;
  }

  /** `read_u16_be`. */
  function ReadU16(data: seq<byte>, offset: nat): (v: u16)
    requires offset + 2 <= |data|
    ensures v == Value(data[offset..offset + 2])
  {
    var s := data[offset..offset + 2];
    assert s[..1][..0] == [];
    assert Value(s[..1]) == s[0];
    256 * (data[offset] as int) + data[offset + 1]
  }
}
