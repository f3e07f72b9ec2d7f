/** Bytes, big-endian numbers and the four-byte headers that open every serialized item.
    Numbers follow XDR (sections 4.1, 4.2 and 4.7 of RFC 4506): most significant byte first. */
module Bytes {
  type byte = x: int | 0 <= x < 0x100
  type u32 = x: int | 0 <= x < 0x1_0000_0000
  type u64 = x: int | 0 <= x < 0x1_0000_0000_0000_0000
  type int32 = x: int | -0x8000_0000 <= x < 0x8000_0000

  const SIZE_LIMIT: nat := 0x1_0000_0000_0000_0000
  const INT32_MAX: nat := 0x7FFF_FFFF
  const REFERENCE_LIMIT: nat := 0x100_0000

  // Type codes, the last byte of a header.
  const NIL: byte := 0
  const SYM: byte := 1
  const LIST: byte := 2
  const ENV: byte := 4
  const LANG: byte := 6
  const BUILTIN: byte := 8
  const CHAR: byte := 9
  const LGL: byte := 10
  const INT: byte := 13
  const REAL: byte := 14
  const CPLX: byte := 15
  const STR: byte := 16
  const VEC: byte := 19
  const EXPR: byte := 20
  const EXTPTR: byte := 22
  const RAW: byte := 24
  const S4: byte := 25
  const ALTREP: byte := 238
  const BASEENV: byte := 241
  const EMPTYENV: byte := 242
  const GLOBALENV: byte := 253
  const NILVALUE: byte := 254
  const REF: byte := 255

  // Flag bits of a header's third byte.
  predicate HasObject(flags: byte) { flags % 2 == 1 }
  predicate HasAttributes(flags: byte) { flags / 2 % 2 == 1 }
  predicate HasTag(flags: byte) { flags / 4 % 2 == 1 }

  function Pow256(w: nat): (r: nat)
    ensures r > 0
  {
    if w == 0 then 1 else 256 * Pow256(w - 1)
  }

  /** The low `w` bytes of `n`, most significant first. */
  function BigEndian(n: nat, w: nat): (s: seq<byte>)
    ensures |s| == w
  {
    if w == 0 then [] else BigEndian(n / 256, w - 1) + [n % 256]
  }

  function FromBigEndian(s: seq<byte>): (n: nat)
  {
    if s == [] then 0 else 256 * FromBigEndian(s[..|s| - 1]) + s[|s| - 1]
  }

  /** A number survives the trip through `w` bytes exactly when it fits in them. */
  lemma {:induction false} BigEndianInverts(n: nat, w: nat)
    ensures FromBigEndian(BigEndian(n, w)) == n <==> n < Pow256(w)
    ensures FromBigEndian(BigEndian(n, w)) < Pow256(w)
  {
    if w > 0 {
      BigEndianInverts(n / 256, w - 1);
      var s := BigEndian(n, w);
      assert s[..|s| - 1] == BigEndian(n / 256, w - 1);
    }
  }

  lemma {:induction false} FromBigEndianInverts(s: seq<byte>)
    ensures FromBigEndian(s) < Pow256(|s|)
    ensures BigEndian(FromBigEndian(s), |s|) == s
  {
    if s != [] {
      FromBigEndianInverts(s[..|s| - 1]);
      assert s == s[..|s| - 1] + [s[|s| - 1]];
    }
  }

  lemma Widths()
    ensures Pow256(1) == 0x100 && Pow256(4) == 0x1_0000_0000
    ensures Pow256(8) == SIZE_LIMIT
  {
    assert Pow256(2) == 0x1_0000 && Pow256(3) == 0x100_0000;
    assert Pow256(5) == 0x100_0000_0000 && Pow256(6) == 0x1_0000_0000_0000;
  }

  // Two's complement.
  function ToU32(x: int32): u32 { if x < 0 then x + 0x1_0000_0000 else x }
  function FromU32(x: u32): int32 { if x < 0x8000_0000 then x else x - 0x1_0000_0000 }

  // A back reference keeps its number in the first three bytes of its header.
  function ReferenceHeader(number: nat): (h: seq<byte>)
    ensures |h| == 4
  {
    [number / 0x1_0000 % 0x100, number / 0x100 % 0x100, number % 0x100, REF]
  }

  function ReferenceNumber(b0: byte, b1: byte, b2: byte): nat { b0 * 0x1_0000 + b1 * 0x100 + b2 }

  /** The 24 bits of a header carry a reference number exactly below 2^24; any other number
      comes back reduced modulo 2^24. */
  lemma ReferenceInverts(number: nat)
    ensures var h := ReferenceHeader(number);
            ReferenceNumber(h[0], h[1], h[2]) == number % REFERENCE_LIMIT
    ensures var h := ReferenceHeader(number);
            ReferenceNumber(h[0], h[1], h[2]) == number <==> number < REFERENCE_LIMIT
  {
    Shift(number);
    Split(number);
    Split(number / 0x100);
    Split(number / 0x1_0000);
    var h := ReferenceHeader(number);
    Remainder(number, number / 0x1_0000 / 0x100, ReferenceNumber(h[0], h[1], h[2]));
  }

  lemma Split(n: nat)
    ensures n == n / 0x100 * 0x100 + n % 0x100 && n % 0x100 < 0x100
  {
  }

  lemma Shift(n: nat)
    ensures n / 0x100 / 0x100 == n / 0x1_0000
  {
  }

  lemma Remainder(n: nat, q: nat, r: nat)
    requires n == q * REFERENCE_LIMIT + r && r < REFERENCE_LIMIT
    ensures n % REFERENCE_LIMIT == r
  {
  }
}
