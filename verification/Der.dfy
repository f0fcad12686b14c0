/** The DER form of a signature (ECDSA-Sig-Value, section 2.2.3 of RFC 3279), written and read by the signing tool. */
module Der {
  import opened Bytes
  import OtaTrailer
  import Ecdsa

  const INTEGER: byte := 0x02
  const SEQUENCE: byte := 0x30

  /** v in as few bytes as hold it, most significant first. */
  function MinBytes(v: nat): (b: seq<byte>)
    ensures |b| > 0
  {
    if v < 256 then [v] else MinBytes(v / 256) + [v % 256]
  }

  /** v in as few bytes as hold it with a leading bit of 0, which keeps it positive. */
  function IntBytes(v: nat): (b: seq<byte>)
    ensures |b| > 0
  {
    if v < 128 then [v] else IntBytes(v / 256) + [v % 256]
  }

  function FromBytes(b: seq<byte>): nat {
    if b == [] then 0 else 256 * FromBytes(b[..|b| - 1]) + b[|b| - 1] as nat
  }

  function Power(n: nat): (p: nat)
    ensures p > 0
  {
    if n == 0 then 1 else 256 * Power(n - 1)
  }

  lemma {:induction false} MinBytesRead(v: nat, n: nat)
    requires 0 < n && v < Power(n)
    ensures FromBytes(MinBytes(v)) == v && |MinBytes(v)| <= n
  {
    if v < 256 {
      assert [v as byte][..0] == [] && FromBytes([]) == 0;
    } else {
      assert Power(0) == 1 && Power(1) == 256;
      MinBytesRead(v / 256, n - 1);
      assert MinBytes(v)[..|MinBytes(v)| - 1] == MinBytes(v / 256);
    }
  }

  lemma {:induction false} IntBytesRead(v: nat, n: nat)
    requires v < 128 * Power(n)
    ensures FromBytes(IntBytes(v)) == v && |IntBytes(v)| <= n + 1
  {
    if v < 128 {
      assert [v as byte][..0] == [] && FromBytes([]) == 0;
    } else {
      assert Power(0) == 1;
      IntBytesRead(v / 256, n - 1);
      assert IntBytes(v)[..|IntBytes(v)| - 1] == IntBytes(v / 256);
    }
  }

  /** The shortest such form: no leading byte could be left out. */
  lemma {:induction false} IntBytesShortest(v: nat)
    ensures var b := IntBytes(v); b[0] < 128 && (|b| > 1 && b[0] == 0 ==> b[1] >= 128)
  {
    if v >= 128 { IntBytesShortest(v / 256); }
  }

  function DerLen(n: nat): (l: seq<byte>)
    requires n < U32
    ensures 0 < |l| <= 5
  {
    if n < 128 then [n]
    else
      MinBytesRead(n, 4);
      var b := MinBytes(n);
      [128 + |b|] + b
  }

  function Tlv(tag: byte, value: seq<byte>): (t: seq<byte>)
    requires |value| < U32
    ensures |value| + 2 <= |t| <= |value| + 6 && (|value| < 128 ==> |t| == |value| + 2)
  {
    [tag] + DerLen(|value|) + value
  }

  function DerInt(v: nat): seq<byte>
    requires |IntBytes(v)| < U32
  {
    Tlv(INTEGER, IntBytes(v))
  }

  datatype Read = Got(tag: byte, value: seq<byte>, end: nat) | Truncated | BadLength

  /** _read_tlv */
  function ReadTlv(buf: seq<byte>, pos: nat): (r: Read)
    ensures r.Got? ==> pos + 2 <= r.end <= |buf|
  {
    if pos + 2 > |buf| then Truncated
    else if buf[pos + 1] < 128 then ReadValue(buf, buf[pos], pos + 2, buf[pos + 1])
    else
      var cnt := buf[pos + 1] - 128;
      if cnt == 0 || cnt > 4 || pos + 2 + cnt > |buf| then BadLength
      else ReadValue(buf, buf[pos], pos + 2 + cnt, FromBytes(buf[pos + 2..pos + 2 + cnt]))
  }

  function ReadValue(buf: seq<byte>, tag: byte, pos: nat, n: nat): (r: Read)
    ensures r.Got? ==> r.end == pos + n <= |buf|
  {
    if pos + n > |buf| then Truncated else Got(tag, buf[pos..pos + n], pos + n)
  }

  datatype Item = Item(tag: byte, value: seq<byte>)

  datatype Items = Items(items: seq<Item>) | BadItems

  /** _seq_items, from pos on. */
  function SeqItems(buf: seq<byte>, pos: nat): Items
    requires pos <= |buf|
    decreases |buf| - pos
  {
    if pos == |buf| then Items([])
    else match ReadTlv(buf, pos)
      case Got(tag, value, end) =>
        (match SeqItems(buf, end)
         case Items(rest) => Items([Item(tag, value)] + rest)
         case BadItems => BadItems)
      case _ => BadItems
  }

  method ReadItems(buf: seq<byte>) returns (r: Items)
    ensures r == SeqItems(buf, 0)
  {
    var items: seq<Item>, pos := [], 0;
    while pos < |buf|
      invariant 0 <= pos <= |buf|
      invariant SeqItems(buf, 0) ==
        match SeqItems(buf, pos) { case Items(rest) => Items(items + rest) case BadItems => BadItems }
      decreases |buf| - pos
    {
      var t := ReadTlv(buf, pos);
      if !t.Got? { return BadItems; }
      items, pos := items + [Item(t.tag, t.value)], t.end;
    }
    assert items + [] == items;
    r := Items(items);
  }

  datatype Signature = Signature(r: nat, s: nat) | NotASignature

  /** sig_to_der */
  function SigToDer(r: nat, s: nat): seq<byte>
    requires |IntBytes(r)| + |IntBytes(s)| < U32 - 12
  {
    Tlv(SEQUENCE, DerInt(r) + DerInt(s))
  }

  /** sig_from_der */
  function SigFromDer(der: seq<byte>): Signature {
    match ReadTlv(der, 0)
    case Got(tag, value, end) =>
      (match if tag == SEQUENCE then SeqItems(value, 0) else Items([])
       case Items(items) =>
         if end != |der| || |items| != 2 || items[0].tag != INTEGER || items[1].tag != INTEGER then NotASignature
         else Signature(FromBytes(items[0].value), FromBytes(items[1].value))
       case BadItems => NotASignature)
    case _ => NotASignature
  }

  lemma ShortRead(buf: seq<byte>, pos: nat, tag: byte, value: seq<byte>)
    requires |value| < 128 && pos + 2 + |value| <= |buf|
    requires buf[pos] == tag && buf[pos + 1] == |value| && buf[pos + 2..pos + 2 + |value|] == value
    ensures ReadTlv(buf, pos) == Got(tag, value, pos + 2 + |value|)
  {
  }

  lemma LongRead(buf: seq<byte>, pos: nat, tag: byte, b: seq<byte>, value: seq<byte>)
    requires 0 < |b| <= 4 && pos + 2 + |b| + |value| <= |buf|
    requires buf[pos] == tag && buf[pos + 1] == 128 + |b| && buf[pos + 2..pos + 2 + |b|] == b
    requires FromBytes(b) == |value| && buf[pos + 2 + |b|..pos + 2 + |b| + |value|] == value
    ensures ReadTlv(buf, pos) == Got(tag, value, pos + 2 + |b| + |value|)
  {
    hide FromBytes, ReadValue;
    assert ReadTlv(buf, pos) == ReadValue(buf, tag, pos + 2 + |b|, |value|);
    ValueRead(buf, tag, pos + 2 + |b|, value);
  }

  lemma ValueRead(buf: seq<byte>, tag: byte, pos: nat, value: seq<byte>)
    requires pos + |value| <= |buf| && buf[pos..pos + |value|] == value
    ensures ReadValue(buf, tag, pos, |value|) == Got(tag, value, pos + |value|)
  {
  }

  lemma Pieces(pre: seq<byte>, tag: byte, l: byte, more: seq<byte>, value: seq<byte>, post: seq<byte>)
    ensures var buf, pos := pre + ([tag] + ([l] + more) + value) + post, |pre|;
      && buf[pos] == tag && buf[pos + 1] == l && buf[pos + 2..pos + 2 + |more|] == more
      && buf[pos + 2 + |more|..pos + 2 + |more| + |value|] == value
  {
  }

  lemma TlvIs(tag: byte, value: seq<byte>)
    requires |value| < U32
    ensures Tlv(tag, value) == [tag] + DerLen(|value|) + value
    ensures |value| < 128 ==> DerLen(|value|) == [|value| as byte] + []
    ensures |value| >= 128 ==>
      var b := MinBytes(|value|);
        0 < |b| <= 4 && FromBytes(b) == |value| && DerLen(|value|) == [(128 + |b|) as byte] + b
  {
    assert Power(4) == 0x1_0000_0000 by {
      assert Power(1) == 256 * Power(0) && Power(2) == 65536 && Power(3) == 16777216;
    }
    MinBytesRead(|value|, 4);
    hide MinBytes, FromBytes, Power;
  }

  /** Only a sequence that is all of the bytes, of just two integers, is a signature. */
  lemma OnlySignatures(der: seq<byte>)
    ensures SigFromDer(der).Signature? <==>
      && ReadTlv(der, 0).Got? && ReadTlv(der, 0).tag == 0x30 && ReadTlv(der, 0).end == |der|
      && var items := SeqItems(ReadTlv(der, 0).value, 0);
        items.Items? && |items.items| == 2 && items.items[0].tag == 0x02 && items.items[1].tag == 0x02
  {
    hide ReadTlv, SeqItems;
  }

  /** Which lengths are read: up to 127 in one byte; in one to four more; no other form, and no value that is cut
      off. */
  lemma LengthsRead(buf: seq<byte>, pos: nat)
    requires pos + 2 <= |buf|
    ensures var l, r := buf[pos + 1], ReadTlv(buf, pos);
      && (l < 0x80 ==> (r.Got? <==> pos + 2 + l <= |buf|))
      && (l == 0x80 || l > 0x84 ==> r.BadLength?)
      && (0x80 < l <= 0x84 && pos + 2 + (l - 0x80) > |buf| ==> r.BadLength?)
      && (r.Got? ==> r.tag == buf[pos] && r.value == buf[r.end - |r.value|..r.end])
  {
    hide FromBytes;
  }

  /** The signature (1, 255) as the standard writes it. */
  lemma SmallSignature()
    ensures SigToDer(1, 255) == [0x30, 0x07, 0x02, 0x01, 0x01, 0x02, 0x02, 0x00, 0xFF]
    ensures SigFromDer([0x30, 0x07, 0x02, 0x01, 0x01, 0x02, 0x02, 0x00, 0xFF]) == Signature(1, 255)
  {
    assert IntBytes(1) == [1] && IntBytes(255) == [0, 255] by { assert IntBytes(255 / 256) == [0]; }
    SignatureReadsBack(1, 255);
  }

  /** A value reads back wherever it stands. */
  lemma TlvRead(pre: seq<byte>, tag: byte, value: seq<byte>, post: seq<byte>)
    requires |value| < U32
    ensures ReadTlv(pre + Tlv(tag, value) + post, |pre|) == Got(tag, value, |pre| + |Tlv(tag, value)|)
  {
    hide *;
    TlvIs(tag, value);
    var buf := pre + Tlv(tag, value) + post;
    if |value| < 128 {
      Pieces(pre, tag, |value|, [], value, post);
      ShortRead(buf, |pre|, tag, value);
    } else {
      var b := MinBytes(|value|);
      Pieces(pre, tag, 128 + |b|, b, value, post);
      LongRead(buf, |pre|, tag, b, value);
    }
  }

  lemma {:induction false} PowerGrows(v: nat) returns (n: nat)
    ensures v < Power(n) && v < 128 * Power(n)
  {
    n := 0;
    assert Power(0) == 1;
    if v > 0 {
      var m := PowerGrows(v / 256);
      n := m + 1;
      assert Power(n) == 256 * Power(m);
    }
  }

  lemma SeqStep(buf: seq<byte>, pos: nat, tag: byte, value: seq<byte>, end: nat, rest: seq<Item>)
    requires pos < end <= |buf| && ReadTlv(buf, pos) == Got(tag, value, end) && SeqItems(buf, end) == Items(rest)
    ensures SeqItems(buf, pos) == Items([Item(tag, value)] + rest)
  {
    hide ReadTlv;
  }

  lemma FirstRead(tag: byte, value: seq<byte>, post: seq<byte>)
    requires |value| < U32
    ensures ReadTlv(Tlv(tag, value) + post, 0) == Got(tag, value, |Tlv(tag, value)|)
  {
    hide *;
    assert [] + Tlv(tag, value) == Tlv(tag, value);
    TlvRead([], tag, value, post);
  }

  lemma LastRead(pre: seq<byte>, tag: byte, value: seq<byte>)
    requires |value| < U32
    ensures ReadTlv(pre + Tlv(tag, value), |pre|) == Got(tag, value, |pre + Tlv(tag, value)|)
  {
    hide *;
    assert pre + Tlv(tag, value) + [] == pre + Tlv(tag, value);
    TlvRead(pre, tag, value, []);
  }

  lemma SeqEnd(buf: seq<byte>)
    ensures SeqItems(buf, |buf|) == Items([])
  {
  }

  lemma TwoItemsRead(x: seq<byte>, y: seq<byte>)
    requires |x| < U32 && |y| < U32
    ensures SeqItems(Tlv(INTEGER, x) + Tlv(INTEGER, y), 0) == Items([Item(INTEGER, x), Item(INTEGER, y)])
  {
    var a, b := Tlv(INTEGER, x), Tlv(INTEGER, y);
    hide *;
    SeqEnd(a + b);
    LastRead(a, INTEGER, y);
    SeqStep(a + b, |a|, INTEGER, y, |a + b|, []);
    FirstRead(INTEGER, x, b);
    SeqStep(a + b, 0, INTEGER, x, |a|, [Item(INTEGER, y)]);
  }

  /** A signature reads back from its DER form, whatever its two numbers. */
  lemma SignatureReadsBack(r: nat, s: nat)
    requires |IntBytes(r)| + |IntBytes(s)| < U32 - 12
    ensures SigFromDer(SigToDer(r, s)) == Signature(r, s)
  {
    var value, der := DerInt(r) + DerInt(s), SigToDer(r, s);
    var n := PowerGrows(r);
    var m := PowerGrows(s);
    IntBytesRead(r, n);
    IntBytesRead(s, m);
    TwoItemsRead(IntBytes(r), IntBytes(s));
    TlvRead([], SEQUENCE, value, []);
    assert [] + der + [] == der;
    hide ReadTlv, Tlv, IntBytes, FromBytes, SeqItems;
  }

  /** A P-256 signature takes 8 to 72 bytes. */
  lemma SignatureFits(r: nat, s: nat)
    requires r < 128 * Power(32) && s < 128 * Power(32)
    ensures |IntBytes(r)| + |IntBytes(s)| <= 66 && 8 <= |SigToDer(r, s)| <= OtaTrailer.SIG_MAX
  {
    IntBytesRead(r, 32);
    IntBytesRead(s, 32);
  }

  lemma {:induction false} PowerSum(a: nat, b: nat)
    ensures Power(a + b) == Power(a) * Power(b)
  {
    if a > 0 { PowerSum(a - 1, b); }
  }

  lemma NFits()
    ensures Ecdsa.N < 128 * Power(32)
  {
    assert Power(1) == 256 * Power(0) && Power(2) == 65536;
    hide Power;
    PowerSum(2, 2);
    assert Power(4) == 0x1_0000_0000;
    PowerSum(4, 4);
    assert Power(8) == 0x1_0000_0000_0000_0000;
    PowerSum(8, 8);
    assert Power(16) == 0x1_0000_0000_0000_0000_0000_0000_0000_0000;
    PowerSum(16, 16);
  }

  /** make_trailer takes every signature that the tool makes, and the signed image splits into the image and
      that signature. */
  lemma SignedImageSplits(crc: OtaTrailer.Crc, image: seq<byte>, r: nat, s: nat)
    requires |image| < U32 && r < Ecdsa.N && s < Ecdsa.N
    ensures |IntBytes(r)| + |IntBytes(s)| <= 66
    ensures var made := OtaTrailer.MakeTrailer(crc, |image|, SigToDer(r, s));
      && made.Trailer?
      && var split := OtaTrailer.SplitSigned(crc, image + made.bytes);
        split.Signed? && split.image == image && SigFromDer(split.der) == Signature(r, s)
  {
    NFits();
    SignatureFits(r, s);
    SignatureReadsBack(r, s);
    OtaTrailer.SignedSplitsBack(crc, image, SigToDer(r, s));
  }
}
