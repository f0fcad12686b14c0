/** Bytes and the little-endian words made of them. */
module Bytes {
  type byte = x: int | 0 <= x < 256

  const U32 := 0x1_0000_0000

  const TAB: byte := 9
  const LF: byte := 10
  const CR: byte := 13
  const SPACE: byte := 32
  const CRLF: seq<byte> := [CR, LF]

  predicate IsBlank(c: byte) {
    c == SPACE || c == TAB
  }

  /** The bytes of an ASCII text. */
  predicate Spells(b: seq<byte>, text: string) {
    |b| == |text| && forall i :: 0 <= i < |b| ==> b[i] as int == text[i] as int
  }

  /** The same, small letters standing for capital ones too. */
  predicate SpellsAnyCase(b: seq<byte>, text: string) {
    |b| == |text| && forall i :: 0 <= i < |b| ==>
      b[i] as int == text[i] as int || ('a' <= text[i] <= 'z' && b[i] as int + 32 == text[i] as int)
  }

  /** The value of a hexadecimal digit, else -1. */
  function HexVal(c: byte): (v: int)
    ensures -1 <= v < 16
  {
    if 48 <= c <= 57 then c - 48
    else if 97 <= c <= 102 then c - 97 + 10
    else if 65 <= c <= 70 then c - 65 + 10
    else -1
  }

  /** The sixteen digits in either case, and no other byte. */
  lemma HexValIs(c: byte, v: nat)
    requires v < 16
    ensures HexVal(c) == v <==> c as int == "0123456789abcdef"[v] as int || c as int == "0123456789ABCDEF"[v] as int
  {
    assert "0123456789abcdef"[v] as int == if v < 10 then 48 + v else 87 + v;
    assert "0123456789ABCDEF"[v] as int == if v < 10 then 48 + v else 55 + v;
  }

  function Le32(n: int): (b: seq<byte>)
    requires 0 <= n < U32
    ensures |b| == 4
  {
    [n % 256, n / 256 % 256, n / 65536 % 256, n / 16777216]
  }

  function FromLe32(b: seq<byte>): (n: nat)
    requires |b| == 4
    ensures n < U32
  {
    b[0] as int + 256 * (b[1] as int) + 65536 * (b[2] as int) + 16777216 * (b[3] as int)
  }

  lemma Le32RoundTrip(n: int)
    requires 0 <= n < U32
    ensures FromLe32(Le32(n)) == n
  {
    assert n == n % 256 + 256 * (n / 256);
    assert n / 256 == n / 256 % 256 + 256 * (n / 256 / 256);
    assert n / 256 / 256 == n / 65536;
    assert n / 65536 == n / 65536 % 256 + 256 * (n / 65536 / 256);
    assert n / 65536 / 256 == n / 16777216;
  }

  function Zeros(n: nat): (z: seq<byte>)
    ensures |z| == n && forall i :: 0 <= i < n ==> z[i] == 0
  {
    seq(n, _ => 0)
  }
}
