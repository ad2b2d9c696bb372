/** The two hexadecimal decoders: the strict one of the pre-shared key, and the lenient one of the
    certificate fingerprint. */
module HexKeys {
  import opened Bytes
  import opened InnerFrame

  const KEY_SIZE: nat := 32

  /** `hex_nibble`; 0xFF marks a character that is no digit. */
  function HexNibble(c: char): (n: byte)
    ensures n < 16 || n == 0xFF
  {
    if '0' <= c <= '9' then c as int - '0' as int
    else if 'a' <= c <= 'f' then 10 + c as int - 'a' as int
    else if 'A' <= c <= 'F' then 10 + c as int - 'A' as int
    else 0xFF
  }

  /** `decode_hex_nibble`: what is no digit counts as zero. */
  function LenientNibble(c: char): (n: byte)
    ensures n < 16
  {
    if HexNibble(c) == 0xFF then 0 else HexNibble(c)
  }

  predicate IsHex(s: string) { forall i :: 0 <= i < |s| ==> HexNibble(s[i]) != 0xFF }

  function Octet(high: char, low: char): byte { 16 * (LenientNibble(high) as int) + LenientNibble(low) }

  /** `out` holds the octets that the leading pairs of characters denote. */
  predicate Spells(hex: string, out: seq<byte>) {
    2 * |out| <= |hex| && forall i :: 0 <= i < |out| ==> out[i] == Octet(hex[2 * i], hex[2 * i + 1])
  }

  /** The strict decoder accepts exactly 64 hexadecimal digits. */
  method DecodeHexKey(hex: string) returns (key: Option<seq<byte>>)
    ensures key.Some? <==> |hex| == 2 * KEY_SIZE && IsHex(hex)
    ensures key.Some? ==> |key.value| == KEY_SIZE && Spells(hex, key.value)
  {
    if |hex| != KEY_SIZE * 2 {
      return None;
    }
    var out: seq<byte> := [];
    while |out| < KEY_SIZE
      invariant |out| <= KEY_SIZE && Spells(hex, out)
      invariant forall j :: 0 <= j < 2 * |out| ==> HexNibble(hex[j]) != 0xFF
    {
      var h, l := hex[2 * |out|], hex[2 * |out| + 1];
      var high, low := HexNibble(h), HexNibble(l);
      if high == 0xFF || low == 0xFF {
        return None;
      }
      out := out + [16 * (high as int) + low];
    }
    key := Some(out);
  }

  /** The lenient decoder accepts any even number of characters that fits the buffer. */
  method DecodeHexBuffer(hex: string, capacity: nat) returns (out: Option<seq<byte>>)
    ensures out.Some? <==> |hex| % 2 == 0 && |hex| / 2 <= capacity
    ensures out.Some? ==> 2 * |out.value| == |hex| && Spells(hex, out.value)
  {
    if |hex| % 2 != 0 || |hex| / 2 > capacity {
      return None;
    }
    var bytes: seq<byte> := [];
    while |bytes| < |hex| / 2
      invariant |bytes| <= |hex| / 2 && Spells(hex, bytes)
    {
      bytes := bytes + [16 * (LenientNibble(hex[2 * |bytes|]) as int) + LenientNibble(hex[2 * |bytes| + 1])];
    }
    out := Some(bytes);
  }

  /** Lower-case printing. */
  function HexDigit(n: nat): char
    requires n < 16
  {
    if n < 10 then ('0' as int + n) as char else ('a' as int + n - 10) as char
  }

  function Hex(key: seq<byte>): (s: string)
    ensures |s| == 2 * |key|
  {
    seq(2 * |key|, i requires 0 <= i < 2 * |key| => HexDigit(if i % 2 == 0 then key[i / 2] / 16 else key[i / 2] % 16))
  }

  lemma DigitNibble(n: nat)
    requires n < 16
    ensures HexNibble(HexDigit(n)) == n
  {
  }

  /** Both decoders agree wherever the strict one accepts, and both give a printed key back: a string spells
      at most one key, and the printed key spells it. */
  lemma HexRoundTrip(key: seq<byte>, hex: string, a: seq<byte>, b: seq<byte>)
    ensures IsHex(Hex(key)) && Spells(Hex(key), key)
    ensures |a| == |b| && Spells(hex, a) && Spells(hex, b) ==> a == b
  {
    var s := Hex(key);
    forall i | 0 <= i < |s| ensures HexNibble(s[i]) == if i % 2 == 0 then key[i / 2] / 16 else key[i / 2] % 16 {
      DigitNibble(if i % 2 == 0 then key[i / 2] / 16 else key[i / 2] % 16);
    }
    forall i | 0 <= i < |key| ensures key[i] == Octet(s[2 * i], s[2 * i + 1]) {
      assert HexNibble(s[2 * i]) == key[i] / 16 && HexNibble(s[2 * i + 1]) == key[i] % 16;
    }
  }

  function UpperCase(c: char): char { if 'a' <= c <= 'z' then (c as int - 32) as char else c }

  function Upper(s: string): (r: string)
    ensures |r| == |s| && forall i :: 0 <= i < |s| ==> r[i] == UpperCase(s[i])
  {
    seq(|s|, i requires 0 <= i < |s| => UpperCase(s[i]))
  }

  /** A digit in either case is a digit of the same value, so a key may be written in either: what a string spells,
      its upper-case form spells too, and one is hexadecimal iff the other is. */
  lemma CaseInsensitive(hex: string, out: seq<byte>)
    ensures IsHex(Upper(hex)) <==> IsHex(hex)
    ensures Spells(Upper(hex), out) <==> Spells(hex, out)
  {
    forall i | 0 <= i < |hex| ensures HexNibble(Upper(hex)[i]) == HexNibble(hex[i]) {
      SameNibble(hex[i]);
    }
    forall i | 0 <= i < |out| && 2 * |out| <= |hex|
      ensures Octet(Upper(hex)[2 * i], Upper(hex)[2 * i + 1]) == Octet(hex[2 * i], hex[2 * i + 1])
    {
      SameNibble(hex[2 * i]);
      SameNibble(hex[2 * i + 1]);
    }
  }

  lemma SameNibble(c: char)
    ensures HexNibble(UpperCase(c)) == HexNibble(c)
  {
  }

  /** The digits are the twenty-two characters `0` to `9`, `a` to `f` and `A` to `F`, and no others. */
  lemma DigitsAre(c: char)
    ensures HexNibble(c) != 0xFF <==> c in "0123456789abcdefABCDEF"
    ensures forall n :: 0 <= n < 16 ==> HexNibble("0123456789abcdef"[n]) == n
  {
    var all := "0123456789abcdefABCDEF";
    if HexNibble(c) != 0xFF {
      var k := if c <= '9' then c as int - '0' as int
               else if c <= 'F' then 16 + c as int - 'A' as int
               else 10 + c as int - 'a' as int;
      assert all[k] == c;
    }
  }
}
