/** IPv4 addresses in host order and the prefix arithmetic of sections 3.1 and 5.1 of RFC 4632. */
module Ipv4 {
  import opened Bytes

  type Prefix = p: int | 0 <= p <= 32

  function Pow2(k: nat): (p: nat)
    ensures p > 0
  {
    if k == 0 then 1 else 2 * Pow2(k - 1)
  }

  // ---------------------------------------------------------------- words as bits, most significant first

  function ToBits(n: nat, width: nat): (b: seq<bool>)
    ensures |b| == width
  {
    if width == 0 then [] else ToBits(n / 2, width - 1) + [n % 2 == 1]
  }

  function FromBits(b: seq<bool>): nat {
    if b == [] then 0 else 2 * FromBits(b[..|b| - 1]) + if b[|b| - 1] then 1 else 0
  }

  function Repeat(bit: bool, n: nat): (b: seq<bool>)
    ensures |b| == n && forall i :: 0 <= i < n ==> b[i] == bit
  {
    seq(n, i => bit)
  }

  function And(a: seq<bool>, b: seq<bool>): (c: seq<bool>)
    requires |a| == |b|
    ensures |c| == |a| && forall i :: 0 <= i < |a| ==> c[i] == (a[i] && b[i])
  {
    seq(|a|, i requires 0 <= i < |a| => a[i] && b[i])
  }

  function ShiftLeft(b: seq<bool>, k: nat): seq<bool>
    requires k <= |b|
  {
    b[k..] + Repeat(false, k)
  }

  /** The mask of a prefix: all ones shifted left, and zero for the empty prefix. */
  function Mask(p: Prefix): (m: seq<bool>)
    ensures |m| == 32
  {
    if p == 0 then Repeat(false, 32) else ShiftLeft(Repeat(true, 32), 32 - p)
  }

  /** The network address that the parser and the configurator compute: a full prefix is not masked. */
  function Masked(a: u32, p: Prefix): (n: u32) {
    if p < 32 then
      var b := And(ToBits(a, 32), Mask(p));
      FromBitsBound(b);
      WordSize();
      FromBits(b)
    else a
  }

  // ---------------------------------------------------------------- arithmetic of bits

  lemma {:induction false} FromBitsBound(b: seq<bool>)
    ensures FromBits(b) < Pow2(|b|)
  {
    if b != [] {
      FromBitsBound(b[..|b| - 1]);
    }
  }

  lemma FromBitsSnoc(b: seq<bool>, bit: bool)
    ensures FromBits(b + [bit]) == 2 * FromBits(b) + if bit then 1 else 0
  {
    assert (b + [bit])[..|b + [bit]| - 1] == b;
  }

  lemma Halve(n: nat, p: nat)
    ensures n < 2 * p ==> n / 2 < p
    ensures n == 2 * (n / 2) + if n % 2 == 1 then 1 else 0
  {
  }

  lemma {:induction false} FromBitsToBits(n: nat, width: nat)
    requires n < Pow2(width)
    ensures FromBits(ToBits(n, width)) == n
  {
    if width != 0 {
      Halve(n, Pow2(width - 1));
      FromBitsToBits(n / 2, width - 1);
      FromBitsSnoc(ToBits(n / 2, width - 1), n % 2 == 1);
    }
  }

  /** `v` shifted left by `k` bits. */
  function Scaled(v: nat, k: nat): nat {
    if k == 0 then v else 2 * Scaled(v, k - 1)
  }

  lemma {:induction false} ScaledIsProduct(v: nat, k: nat)
    ensures Scaled(v, k) == v * Pow2(k)
  {
    if k != 0 {
      ScaledIsProduct(v, k - 1);
      var p := Pow2(k - 1);
      assert 2 * (v * p) == v * (2 * p);
    }
  }

  lemma {:induction false} FromBitsAppend(x: seq<bool>, y: seq<bool>)
    ensures FromBits(x + y) == Scaled(FromBits(x), |y|) + FromBits(y)
    decreases |y|
  {
    if y == [] {
      assert x + y == x;
    } else {
      FromBitsAppend(x, y[..|y| - 1]);
      FromBitsAppendOne(x, y[..|y| - 1], y[|y| - 1]);
      assert y == y[..|y| - 1] + [y[|y| - 1]];
    }
  }

  lemma FromBitsAppendOne(x: seq<bool>, y: seq<bool>, bit: bool)
    requires FromBits(x + y) == Scaled(FromBits(x), |y|) + FromBits(y)
    ensures FromBits(x + (y + [bit])) == Scaled(FromBits(x), |y| + 1) + FromBits(y + [bit])
  {
    assert x + (y + [bit]) == (x + y) + [bit];
    FromBitsSnoc(x + y, bit);
    FromBitsSnoc(y, bit);
  }

  lemma {:induction false} FromBitsZeros(n: nat)
    ensures FromBits(Repeat(false, n)) == 0
  {
    if n != 0 {
      var b := Repeat(false, n);
      assert b[..|b| - 1] == Repeat(false, n - 1);
      FromBitsZeros(n - 1);
    }
  }

  lemma {:induction false} Pow2Add(m: nat, n: nat)
    ensures Pow2(m + n) == Pow2(m) * Pow2(n)
  {
    if m != 0 {
      Pow2Add(m - 1, n);
      var p, q := Pow2(m - 1), Pow2(n);
      assert 2 * (p * q) == (2 * p) * q;
    }
  }

  lemma WordSize()
    ensures Pow2(32) == TWO_32
  {
    assert Pow2(2) == 4;
    assert Pow2(4) == 16;
    Pow2Add(4, 4);
    assert Pow2(8) == 256;
    Pow2Add(8, 8);
    assert Pow2(16) == 65536;
    Pow2Add(16, 16);
  }

  lemma {:induction false} Pow2Strict(m: nat, n: nat)
    requires m < n
    ensures Pow2(m) < Pow2(n)
  {
    if m + 1 < n {
      Pow2Strict(m, n - 1);
    }
  }

  /** Division is determined by quotient and remainder. */
  lemma DivMod(a: nat, d: nat, q: nat, r: nat)
    requires d > 0 && a == q * d + r && r < d
    ensures a / d == q && a % d == r
  {
    var q', r' := a / d, a % d;
    Euclid(a, d);
    assert (q - q') * d == r' - r;
    if q > q' {
      AtLeast(q - q', d);
    } else if q < q' {
      AtLeast(q' - q, d);
    }
  }

  lemma Euclid(a: nat, d: nat)
    requires d > 0
    ensures a == (a / d) * d + a % d && 0 <= a % d < d
  {
  }

  lemma AtLeast(k: nat, d: nat)
    requires k > 0
    ensures k * d >= d
  {
    assert k * d == (k - 1) * d + d;
  }

  // ---------------------------------------------------------------- masking

  /** The addresses that share their first `p` bits with a masked address number 2^(32-p). */
  function Size(p: Prefix): nat { Pow2(32 - p) }

  lemma MaskIsOnesZeros(p: Prefix)
    ensures Mask(p) == Repeat(true, p) + Repeat(false, 32 - p)
  {
  }

  /** Masking rounds down to a multiple of the block size. */
  lemma MaskedValue(a: u32, p: Prefix)
    ensures Masked(a, p) == a - a % Size(p)
  {
    if p < 32 {
      var b := ToBits(a, 32);
      WordSize();
      FromBitsToBits(a, 32);
      MaskedBits(b, p);
      FromBitsBound(b[p..]);
      DivMod(a, Size(p), FromBits(b[..p]), FromBits(b[p..]));
    } else {
      assert a % 1 == 0;
    }
  }

  /** The empty prefix names one block, that of all addresses. */
  lemma MaskedZero(x: u32)
    ensures Masked(x, 0) == 0
  {
    MaskedValue(x, 0);
    WordSize();
    DivMod(x, Size(0), 0, x);
  }

  lemma MaskedBits(b: seq<bool>, p: Prefix)
    requires |b| == 32
    ensures FromBits(b) == FromBits(b[..p]) * Size(p) + FromBits(b[p..])
    ensures FromBits(And(b, Mask(p))) == FromBits(b[..p]) * Size(p)
  {
    var x, y, zeros := b[..p], b[p..], Repeat(false, 32 - p);
    assert b == x + y;
    FromBitsAppend(x, y);
    AndMask(b, p);
    FromBitsAppend(x, zeros);
    FromBitsZeros(32 - p);
    ScaledIsProduct(FromBits(x), 32 - p);
  }

  lemma AndMask(b: seq<bool>, p: Prefix)
    requires |b| == 32
    ensures And(b, Mask(p)) == b[..p] + Repeat(false, 32 - p)
  {
    MaskIsOnesZeros(p);
  }

  /** The block of addresses that a prefix names. */
  predicate InBlock(x: u32, network: u32, p: Prefix) { Masked(x, p) == network }

  /** Masking twice, in the parser and again in the configurator, is masking once. */
  lemma MaskedTwice(a: u32, p: Prefix)
    ensures Masked(Masked(a, p), p) == Masked(a, p)
  {
    MaskedValue(a, p);
    RoundedDown(a, Size(p));
    MaskedMultiple(Masked(a, p), p);
  }

  lemma MaskedMultiple(m: u32, p: Prefix)
    requires m % Size(p) == 0
    ensures Masked(m, p) == m
  {
    MaskedValue(m, p);
  }

  lemma RoundedDown(a: nat, d: nat)
    requires d > 0
    ensures (a - a % d) % d == 0
  {
    Euclid(a, d);
    DivMod(a - a % d, d, a / d, 0);
  }

  /** Two addresses are in one block exactly when they agree on the first `p` bits. */
  lemma SharesPrefix(x: u32, a: u32, p: Prefix)
    ensures x / Size(p) == a / Size(p) <==> Masked(x, p) == Masked(a, p)
  {
    MaskedValue(x, p);
    MaskedValue(a, p);
    SameQuotient(x, a, Size(p));
  }

  lemma SameQuotient(x: nat, a: nat, d: nat)
    requires d > 0
    ensures x / d == a / d <==> x - x % d == a - a % d
  {
    Euclid(x, d);
    Euclid(a, d);
    if x - x % d == a - a % d {
      DivMod(x, d, a / d, x % d);
    }
  }

  /** A block is an interval that starts at its network address. */
  lemma BlockIsInterval(x: u32, a: u32, p: Prefix)
    ensures InBlock(x, Masked(a, p), p) <==> Masked(a, p) <= x < Masked(a, p) + Size(p)
  {
    MaskedValue(a, p);
    MaskedValue(x, p);
    Interval(x, a, Size(p));
  }

  lemma Interval(x: nat, a: nat, d: nat)
    requires d > 0
    ensures x - x % d == a - a % d <==> a - a % d <= x < a - a % d + d
  {
    var n := a - a % d;
    Euclid(a, d);
    Euclid(x, d);
    if n <= x < n + d {
      DivMod(x, d, a / d, x - n);
    }
  }

  /** Hence its network address is the least address of the block, and belongs to it. */
  lemma NetworkIsLeast(a: u32, p: Prefix)
    ensures InBlock(Masked(a, p), Masked(a, p), p)
    ensures forall x: u32 :: InBlock(x, Masked(a, p), p) ==> Masked(a, p) <= x
  {
    MaskedTwice(a, p);
    forall x: u32 | InBlock(x, Masked(a, p), p) ensures Masked(a, p) <= x {
      BlockIsInterval(x, a, p);
    }
  }

  ghost predicate SameBlock(a: u32, p: Prefix, b: u32, q: Prefix) {
    forall x: u32 :: InBlock(x, Masked(a, p), p) <==> InBlock(x, Masked(b, q), q)
  }

  lemma LastOfBlock(a: u32, p: Prefix)
    ensures Masked(a, p) + Size(p) <= TWO_32
  {
    MaskedValue(a, p);
    WordSize();
    Pow2Add(p, 32 - p);
    TopBlock(a, Size(p), Pow2(p));
  }

  lemma TopBlock(a: nat, d: nat, k: nat)
    requires d > 0 && a < k * d
    ensures a - a % d + d <= k * d
  {
    Euclid(a, d);
    var q := a / d;
    if q >= k {
      AtLeastMul(q, k, d);
    } else {
      AtLeastMul(k, q + 1, d);
      assert (q + 1) * d == q * d + d;
    }
  }

  lemma AtLeastMul(q: nat, k: nat, d: nat)
    requires q >= k
    ensures q * d >= k * d
  {
    assert q * d == k * d + (q - k) * d;
  }

  /** Two entries give the same destination and prefix length exactly when they name the same block. */
  lemma SameRowIffSameBlock(a: u32, p: Prefix, b: u32, q: Prefix)
    ensures (Masked(a, p) == Masked(b, q) && p == q) <==> SameBlock(a, p, b, q)
  {
    if SameBlock(a, p, b, q) {
      EqualStarts(a, p, b, q);
      EqualStarts(b, q, a, p);
      EqualEnds(a, p, b, q);
      EqualEnds(b, q, a, p);
      if p < q {
        Pow2Strict(32 - q, 32 - p);
      } else if q < p {
        Pow2Strict(32 - p, 32 - q);
      }
    }
  }

  lemma EqualStarts(a: u32, p: Prefix, b: u32, q: Prefix)
    requires SameBlock(a, p, b, q)
    ensures Masked(b, q) <= Masked(a, p)
  {
    var n := Masked(a, p);
    NetworkIsLeast(a, p);
    assert InBlock(n, Masked(b, q), q);
    BlockIsInterval(n, b, q);
  }

  lemma EqualEnds(a: u32, p: Prefix, b: u32, q: Prefix)
    requires SameBlock(a, p, b, q) && Masked(a, p) == Masked(b, q)
    ensures Size(p) <= Size(q)
  {
    LastOfBlock(a, p);
    var last := Masked(a, p) + Size(p) - 1;
    BlockIsInterval(last, a, p);
    BlockIsInterval(last, b, q);
  }
}
