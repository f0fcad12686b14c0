/** Secrets at rest: "ENC:", the IV and the cipher blocks in hexadecimal; CBC (section 6.2 of NIST SP 800-38A)
    over PKCS #7 padding (section 6.3 of RFC 5652). The block cipher is a parameter. */
module SecretsVault {
  import opened Bytes

  const BLOCK := 16
  const PREFIX: seq<byte> := [69, 78, 67, 58]  // ENC:

  type Cipher = seq<byte> -> seq<byte>

  predicate IsBlock(b: seq<byte>) {
    |b| == BLOCK
  }

  ghost predicate MapsBlocks(f: Cipher) {
    forall b :: IsBlock(b) ==> IsBlock(f(b))
  }

  /** A key's block cipher and its inverse. */
  ghost predicate Keyed(enc: Cipher, dec: Cipher) {
    MapsBlocks(enc) && MapsBlocks(dec) && forall b :: IsBlock(b) ==> dec(enc(b)) == b
  }

  // ---- hexadecimal

  function Digit(n: int): byte
    requires 0 <= n < 16
  {
    if n < 10 then 48 + n else 97 + n - 10
  }

  function Hex(b: seq<byte>): (h: seq<byte>)
    ensures |h| == 2 * |b|
  {
    if b == [] then [] else [Digit(b[0] / 16), Digit(b[0] % 16)] + Hex(b[1..])
  }

  datatype Unhexed = Unhexed(bytes: seq<byte>) | NotHex

  function Unhex(h: seq<byte>): (r: Unhexed)
    ensures r.Unhexed? ==> |h| == 2 * |r.bytes|
  {
    if h == [] then Unhexed([])
    else if |h| == 1 || HexVal(h[0]) < 0 || HexVal(h[1]) < 0 then NotHex
    else match Unhex(h[2..])
      case Unhexed(rest) => Unhexed([HexVal(h[0]) * 16 + HexVal(h[1])] + rest)
      case NotHex => NotHex
  }

  lemma {:induction false} HexRoundTrip(b: seq<byte>)
    ensures Unhex(Hex(b)) == Unhexed(b)
  {
    if b != [] {
      HexRoundTrip(b[1..]);
      assert Hex(b)[2..] == Hex(b[1..]);
    }
  }

  predicate AllHex(h: seq<byte>) {
    forall i :: 0 <= i < |h| ==> HexVal(h[i]) >= 0
  }

  /** An even number of hexadecimal digits decodes, and nothing else does. */
  lemma {:induction false} UnhexIff(h: seq<byte>)
    ensures Unhex(h).Unhexed? <==> |h| % 2 == 0 && AllHex(h)
  {
    hide HexVal, AllHex;
    if |h| >= 2 {
      UnhexIff(h[2..]);
      AllHexPast(h);
    } else {
      AllHexEmpty(h);
    }
  }

  lemma AllHexEmpty(h: seq<byte>)
    ensures h == [] ==> AllHex(h)
  {
  }

  lemma AllHexPast(h: seq<byte>)
    requires |h| >= 2
    ensures AllHex(h) <==> HexVal(h[0]) >= 0 && HexVal(h[1]) >= 0 && AllHex(h[2..])
  {
    hide HexVal;
    assert forall i :: 2 <= i < |h| ==> h[i] == h[2..][i - 2];
  }

  lemma {:induction false} HexIsHex(b: seq<byte>)
    ensures AllHex(Hex(b))
  {
    if b != [] { HexIsHex(b[1..]); }
  }

  method HexEncode(buf: seq<byte>) returns (out: seq<byte>)
    ensures out == Hex(buf)
  {
    out := [];
    var i := 0;
    while i < |buf|
      invariant 0 <= i <= |buf| && out + Hex(buf[i..]) == Hex(buf)
    {
      assert buf[i..][1..] == buf[i + 1..];
      out := out + [Digit(buf[i] / 16)] + [Digit(buf[i] % 16)];
      i := i + 1;
    }
  }

  method HexDecode(hex: seq<byte>, out: array<byte>) returns (ok: bool)
    modifies out
    ensures ok == (|hex| == 2 * out.Length && Unhex(hex).Unhexed?)
    ensures ok ==> Unhex(hex) == Unhexed(out[..])
  {
    if |hex| != out.Length * 2 { return false; }
    hide *;
    var i := 0;
    ContinuesAtFirst(hex);
    while i < out.Length
      invariant 0 <= i <= out.Length && Continues(hex, 2 * i, out[..i])
    {
      ghost var done := out[..i];
      ContinuesOn(hex, 2 * i, done);
      var hi, lo := HexVal(hex[2 * i]), HexVal(hex[2 * i + 1]);
      if hi < 0 || lo < 0 { return false; }
      var x: byte := hi * 16 + lo;
      out[i] := x;
      i := i + 1;
      assert out[..i] == done + [x];
    }
    assert out[..i] == out[..];
    ContinuesAtLast(hex, out[..]);
    ok := true;
  }

  /** What decodes from the k-th digit on goes on after what is done. */
  predicate Continues(hex: seq<byte>, k: nat, done: seq<byte>) {
    && k <= |hex|
    && Unhex(hex) == match Unhex(hex[k..]) { case Unhexed(b) => Unhexed(done + b) case NotHex => NotHex }
  }

  lemma ContinuesOn(hex: seq<byte>, k: nat, done: seq<byte>)
    requires Continues(hex, k, done) && k + 2 <= |hex|
    ensures var hi, lo := HexVal(hex[k]), HexVal(hex[k + 1]);
      if hi < 0 || lo < 0 then Unhex(hex).NotHex? else Continues(hex, k + 2, done + [hi * 16 + lo])
  {
    hide Unhex, HexVal;
    assert hex[k..][2..] == hex[k + 2..];
    UnhexStep(hex[k..]);
    var x: byte := if HexVal(hex[k]) < 0 || HexVal(hex[k + 1]) < 0 then 0 else HexVal(hex[k]) * 16 + HexVal(hex[k + 1]);
    forall b: seq<byte> ensures done + ([x] + b) == done + [x] + b {
    }
  }

  lemma UnhexStep(h: seq<byte>)
    requires |h| >= 2
    ensures Unhex(h) ==
      if HexVal(h[0]) < 0 || HexVal(h[1]) < 0 then NotHex
      else match Unhex(h[2..])
        case Unhexed(b) => Unhexed([HexVal(h[0]) * 16 + HexVal(h[1])] + b)
        case NotHex => NotHex
  {
    hide HexVal;
  }

  lemma ContinuesAtFirst(hex: seq<byte>)
    ensures Continues(hex, 0, [])
  {
    assert hex[0..] == hex;
    hide Unhex;
  }

  lemma ContinuesAtLast(hex: seq<byte>, done: seq<byte>)
    requires Continues(hex, |hex|, done)
    ensures Unhex(hex) == Unhexed(done)
  {
    assert hex[|hex|..] == [] && Unhex([]) == Unhexed([]) && done + [] == done;
    hide Unhex;
  }

  // ---- CBC

  /** The exclusive or of the low n bits. */
  function XorBits(a: nat, b: nat, n: nat): (c: nat)
    ensures c < Bits(n)
  {
    if n == 0 then 0 else (a + b) % 2 + 2 * XorBits(a / 2, b / 2, n - 1)
  }

  function Bits(n: nat): nat {
    if n == 0 then 1 else 2 * Bits(n - 1)
  }

  function Xor(a: byte, b: byte): byte {
    assert Bits(8) == 256 by { assert Bits(4) == 16; }
    XorBits(a, b, 8)
  }

  lemma {:induction false} XorBitsTwice(a: nat, b: nat, n: nat)
    requires a < Bits(n)
    ensures XorBits(XorBits(a, b, n), b, n) == a
  {
    if n > 0 {
      var c := XorBits(a, b, n);
      assert a / 2 < Bits(n - 1) by { hide XorBits; }
      hide *;
      XorBitsStep(a, b, n);
      XorBitsStep(c, b, n);
      XorBitsTwice(a / 2, b / 2, n - 1);
      SameHalves(a, b, c, XorBits(c, b, n));
    }
  }

  lemma SameHalves(a: nat, b: nat, c: nat, d: nat)
    requires c % 2 == (a + b) % 2 && d % 2 == (c + b) % 2 && d / 2 == a / 2
    ensures d == a
  {
    assert (c + b) % 2 == a % 2;
  }

  lemma XorBitsStep(a: nat, b: nat, n: nat)
    requires n > 0
    ensures XorBits(a, b, n) / 2 == XorBits(a / 2, b / 2, n - 1) && XorBits(a, b, n) % 2 == (a + b) % 2
  {
  }

  lemma XorTwice(a: byte, b: byte)
    ensures Xor(Xor(a, b), b) == a
  {
    assert Bits(8) == 256 by { assert Bits(4) == 16; }
    XorBitsTwice(a, b, 8);
  }

  function XorBlock(a: seq<byte>, b: seq<byte>): (c: seq<byte>)
    requires |a| == |b|
    ensures |c| == |a|
  {
    seq(|a|, i requires 0 <= i < |a| => Xor(a[i], b[i]))
  }

  lemma XorBlockTwice(a: seq<byte>, b: seq<byte>)
    requires |a| == |b|
    ensures XorBlock(XorBlock(a, b), b) == a
  {
    forall i | 0 <= i < |a| ensures Xor(Xor(a[i], b[i]), b[i]) == a[i] { XorTwice(a[i], b[i]); }
  }

  function CbcEncrypt(enc: Cipher, iv: seq<byte>, p: seq<byte>): seq<byte>
    requires IsBlock(iv) && MapsBlocks(enc)
    decreases |p|
  {
    if |p| < BLOCK then []
    else
      var c := enc(XorBlock(p[..BLOCK], iv));
      c + CbcEncrypt(enc, c, p[BLOCK..])
  }

  function CbcDecrypt(dec: Cipher, iv: seq<byte>, c: seq<byte>): seq<byte>
    requires IsBlock(iv) && MapsBlocks(dec)
    decreases |c|
  {
    if |c| < BLOCK then []
    else XorBlock(dec(c[..BLOCK]), iv) + CbcDecrypt(dec, c[..BLOCK], c[BLOCK..])
  }

  lemma EncryptStep(enc: Cipher, iv: seq<byte>, p: seq<byte>)
    requires MapsBlocks(enc) && IsBlock(iv) && |p| >= BLOCK
    ensures var c := enc(XorBlock(p[..BLOCK], iv));
      IsBlock(c) && CbcEncrypt(enc, iv, p) == c + CbcEncrypt(enc, c, p[BLOCK..])
  {
  }

  lemma DecryptStep(dec: Cipher, iv: seq<byte>, c: seq<byte>, rest: seq<byte>)
    requires MapsBlocks(dec) && IsBlock(iv) && IsBlock(c)
    ensures IsBlock(dec(c)) && CbcDecrypt(dec, iv, c + rest) == XorBlock(dec(c), iv) + CbcDecrypt(dec, c, rest)
  {
    assert (c + rest)[..BLOCK] == c && (c + rest)[BLOCK..] == rest;
  }

  lemma KeyedBlock(enc: Cipher, dec: Cipher, b: seq<byte>)
    requires Keyed(enc, dec)
    ensures MapsBlocks(enc) && MapsBlocks(dec) && (IsBlock(b) ==> dec(enc(b)) == b)
  {
  }

  lemma CbcEmpty(enc: Cipher, dec: Cipher, iv: seq<byte>)
    requires MapsBlocks(enc) && MapsBlocks(dec) && IsBlock(iv)
    ensures CbcEncrypt(enc, iv, []) == [] && CbcDecrypt(dec, iv, []) == []
  {
  }

  /** A whole number of blocks: none, or one and the others. */
  lemma FirstBlock(p: seq<byte>)
    requires |p| % BLOCK == 0
    ensures p == [] ||
      (|p| >= BLOCK && IsBlock(p[..BLOCK]) && p == p[..BLOCK] + p[BLOCK..] && |p[BLOCK..]| % BLOCK == 0)
  {
  }

  lemma {:induction false} CbcRoundTrip(enc: Cipher, dec: Cipher, iv: seq<byte>, p: seq<byte>)
    requires Keyed(enc, dec) && IsBlock(iv) && |p| % 16 == 0
    ensures |CbcEncrypt(enc, iv, p)| == |p|
    ensures CbcDecrypt(dec, iv, CbcEncrypt(enc, iv, p)) == p
    decreases |p|, 1
  {
    FirstBlock(p);
    if p == [] {
      KeyedBlock(enc, dec, iv);
      CbcEmpty(enc, dec, iv);
    } else {
      CbcOneMore(enc, dec, iv, p[..16], p[16..]);
    }
  }

  lemma {:induction false} CbcOneMore(enc: Cipher, dec: Cipher, iv: seq<byte>, b: seq<byte>, rest: seq<byte>)
    requires Keyed(enc, dec) && IsBlock(iv) && |b| == 16 && |rest| % 16 == 0
    ensures |CbcEncrypt(enc, iv, b + rest)| == 16 + |rest|
    ensures CbcDecrypt(dec, iv, CbcEncrypt(enc, iv, b + rest)) == b + rest
    decreases |b| + |rest|, 0
  {
    var x := XorBlock(b, iv);
    var c := enc(x);
    KeyedBlock(enc, dec, x);
    assert (b + rest)[..BLOCK] == b && (b + rest)[BLOCK..] == rest;
    EncryptStep(enc, iv, b + rest);
    DecryptStep(dec, iv, c, CbcEncrypt(enc, c, rest));
    XorBlockTwice(b, iv);
    hide Keyed, MapsBlocks, XorBlock, CbcEncrypt, CbcDecrypt;
    CbcRoundTrip(enc, dec, c, rest);
  }

  // ---- records

  /** PKCS #7: 1 to 16 bytes, each the number of them. */
  function Padded(p: seq<byte>): (b: seq<byte>)
    ensures |b| % BLOCK == 0 && |p| < |b| <= |p| + BLOCK
  {
    var pad := BLOCK - |p| % BLOCK;
    p + seq(pad, _ => pad)
  }

  /** The padding's length; 0: not a padding. */
  function PadOf(b: seq<byte>): (n: nat)
    ensures n <= |b|
  {
    if b == [] then 0
    else
      var pad := b[|b| - 1];
      if pad == 0 || pad > BLOCK || pad > |b| || (exists i :: |b| - pad <= i < |b| && b[i] != pad) then 0 else pad
  }

  lemma PadRoundTrip(p: seq<byte>)
    ensures PadOf(Padded(p)) == BLOCK - |p| % BLOCK && Padded(p)[..|Padded(p)| - PadOf(Padded(p))] == p
  {
  }

  /** Text: no control bytes but line feeds, carriage returns and tabs. */
  predicate IsText(p: seq<byte>) {
    forall i :: 0 <= i < |p| ==> p[i] >= 0x20 || p[i] == 10 || p[i] == 13 || p[i] == 9
  }

  function Record(enc: Cipher, iv: seq<byte>, plain: seq<byte>): seq<byte>
    requires IsBlock(iv) && MapsBlocks(enc)
  {
    PREFIX + Hex(iv) + Hex(CbcEncrypt(enc, iv, Padded(plain)))
  }

  predicate IsEncrypted(s: seq<byte>) {
    |s| >= 4 + 2 * BLOCK + 32 && s[..4] == PREFIX
  }

  predicate LooksEncrypted(s: seq<byte>) {
    |s| >= 4 + 2 * BLOCK + 32 && s[..4] == PREFIX && (|s| - 4) % 32 == 0 && AllHex(s[4..])
  }

  /** What decrypt makes of a record; empty: it does not decrypt. */
  function Opened(dec: Cipher, s: seq<byte>): seq<byte>
    requires IsEncrypted(s) && MapsBlocks(dec)
  {
    if (|s| - 4) % 2 != 0 || (|s| - 36) % 32 != 0 then []
    else match (Unhex(s[4..36]), Unhex(s[36..]))
      case (Unhexed(iv), Unhexed(c)) => Unpadded(CbcDecrypt(dec, iv, c))
      case _ => []
  }

  function Unpadded(b: seq<byte>): seq<byte> {
    var n := PadOf(b);
    if n == 0 || !IsText(b[..|b| - n]) then [] else b[..|b| - n]
  }

  /** works: there is a key, the memory and the AES. */
  function Encrypt(enc: Cipher, works: bool, iv: seq<byte>, plain: seq<byte>): seq<byte>
    requires IsBlock(iv) && MapsBlocks(enc)
  {
    if !works || plain == [] then plain else Record(enc, iv, plain)
  }

  function Decrypt(dec: Cipher, works: bool, maybe: seq<byte>): seq<byte>
    requires MapsBlocks(dec)
  {
    if !IsEncrypted(maybe) then maybe else if !works then [] else Opened(dec, maybe)
  }

  lemma RecordParts(enc: Cipher, dec: Cipher, iv: seq<byte>, plain: seq<byte>)
    requires Keyed(enc, dec) && IsBlock(iv)
    ensures var s, c := Record(enc, iv, plain), CbcEncrypt(enc, iv, Padded(plain));
      && |c| == |Padded(plain)| && |s| == 36 + 2 * |c|
      && s[..4] == PREFIX && s[4..36] == Hex(iv) && s[36..] == Hex(c) && s[4..] == Hex(iv) + Hex(c)
  {
    CbcRoundTrip(enc, dec, iv, Padded(plain));
    hide *;
    Joined(PREFIX, Hex(iv), Hex(CbcEncrypt(enc, iv, Padded(plain))));
    PrefixIs();
  }

  lemma PrefixIs()
    ensures |PREFIX| == 4
  {
  }

  lemma Joined(a: seq<byte>, b: seq<byte>, c: seq<byte>)
    requires |a| == 4 && |b| == 32
    ensures var s := a + b + c; s[..4] == a && s[4..36] == b && s[36..] == c && s[4..] == b + c
  {
  }

  lemma HexJoin(a: seq<byte>, b: seq<byte>)
    requires AllHex(a) && AllHex(b)
    ensures AllHex(a + b)
  {
  }

  lemma PaddedLength(p: seq<byte>)
    ensures |Padded(p)| >= 16 && |Padded(p)| % 16 == 0
  {
  }

  lemma HasShape(s: seq<byte>)
    requires |s| >= 68 && s[..4] == PREFIX && (|s| - 36) % 32 == 0 && AllHex(s[4..])
    ensures LooksEncrypted(s) && IsEncrypted(s)
  {
    hide AllHex;
  }

  /** Every record has a record's shape. */
  lemma RecordsLookEncrypted(enc: Cipher, dec: Cipher, iv: seq<byte>, plain: seq<byte>)
    requires Keyed(enc, dec) && IsBlock(iv)
    ensures LooksEncrypted(Record(enc, iv, plain)) && IsEncrypted(Record(enc, iv, plain))
  {
    hide *;
    KeyedBlock(enc, dec, iv);
    RecordParts(enc, dec, iv, plain);
    var c := CbcEncrypt(enc, iv, Padded(plain));
    HexIsHex(iv);
    HexIsHex(c);
    HexJoin(Hex(iv), Hex(c));
    PaddedLength(plain);
    HasShape(Record(enc, iv, plain));
  }

  lemma OpenedIs(dec: Cipher, s: seq<byte>, iv: seq<byte>, c: seq<byte>)
    requires IsEncrypted(s) && MapsBlocks(dec) && (|s| - 36) % 32 == 0 && IsBlock(iv)
    requires Unhex(s[4..36]) == Unhexed(iv) && Unhex(s[36..]) == Unhexed(c)
    ensures Opened(dec, s) == Unpadded(CbcDecrypt(dec, iv, c))
  {
    hide Unhex, Unpadded, CbcDecrypt;
  }

  lemma UnpaddedText(plain: seq<byte>)
    ensures Unpadded(Padded(plain)) == if IsText(plain) then plain else []
  {
    PadRoundTrip(plain);
    hide IsText, Padded, PadOf;
  }

  lemma OpenedRecord(enc: Cipher, dec: Cipher, iv: seq<byte>, plain: seq<byte>)
    requires Keyed(enc, dec) && IsBlock(iv)
    ensures IsEncrypted(Record(enc, iv, plain)) && Opened(dec, Record(enc, iv, plain)) == Unpadded(Padded(plain))
  {
    hide *;
    KeyedBlock(enc, dec, iv);
    RecordParts(enc, dec, iv, plain);
    RecordsLookEncrypted(enc, dec, iv, plain);
    var c := CbcEncrypt(enc, iv, Padded(plain));
    HexRoundTrip(iv);
    HexRoundTrip(c);
    PaddedLength(plain);
    CbcRoundTrip(enc, dec, iv, Padded(plain));
    OpenedIs(dec, Record(enc, iv, plain), iv, c);
  }

  /** A secret comes back, whatever the IV, just when it is text; any other reads as not decryptable. */
  lemma SecretComesBackIff(enc: Cipher, dec: Cipher, iv: seq<byte>, plain: seq<byte>)
    requires Keyed(enc, dec) && IsBlock(iv) && plain != []
    ensures Decrypt(dec, true, Encrypt(enc, true, iv, plain)) == if IsText(plain) then plain else []
  {
    OpenedRecord(enc, dec, iv, plain);
    UnpaddedText(plain);
    hide Keyed, IsText, Record, Opened, IsEncrypted, Unpadded, Padded;
  }

  /** Nothing but text comes out of a record, and only out of one of the right shape. */
  lemma OnlyTextComesOut(dec: Cipher, works: bool, s: seq<byte>)
    requires MapsBlocks(dec) && IsEncrypted(s)
    ensures IsText(Decrypt(dec, works, s))
    ensures Decrypt(dec, works, s) != [] ==> LooksEncrypted(s)
  {
    hide *;
    OpenedOrNot(dec, works, s);
    if Decrypt(dec, works, s) != [] {
      UnhexIff(s[4..36]);
      UnhexIff(s[36..]);
      ShapeOfHalves(s);
    }
  }

  lemma OpenedOrNot(dec: Cipher, works: bool, s: seq<byte>)
    requires MapsBlocks(dec) && IsEncrypted(s)
    ensures |s| >= 68 && IsText(Decrypt(dec, works, s))
    ensures Decrypt(dec, works, s) != [] ==> (|s| - 36) % 32 == 0 && Unhex(s[4..36]).Unhexed? && Unhex(s[36..]).Unhexed?
  {
    hide Unhex, CbcDecrypt, MapsBlocks;
  }

  lemma ShapeOfHalves(s: seq<byte>)
    requires IsEncrypted(s) && (|s| - 36) % 32 == 0
    requires AllHex(s[4..36]) && AllHex(s[36..])
    ensures LooksEncrypted(s)
  {
    assert s[4..] == s[4..36] + s[36..];
  }

  /** Too short, or without the prefix: passed on as it is. And what could not be encrypted comes back, too,
      unless it could itself be taken for a record. */
  lemma PlainPassesThrough(enc: Cipher, dec: Cipher, works: bool, iv: seq<byte>, s: seq<byte>)
    requires MapsBlocks(dec) && MapsBlocks(enc) && IsBlock(iv) && !IsEncrypted(s)
    ensures Decrypt(dec, works, s) == s && Decrypt(dec, works, Encrypt(enc, false, iv, s)) == s
  {
  }

  // ---- as the source computes them

  method Seal(enc: Cipher, works: bool, iv: seq<byte>, plain: seq<byte>) returns (out: seq<byte>)
    requires IsBlock(iv) && MapsBlocks(enc)
    ensures out == Encrypt(enc, works, iv, plain)
  {
    if !works || plain == [] { return plain; }
    var pad := BLOCK - |plain| % BLOCK;
    var buf, i := plain, 0;
    while i < pad
      invariant 0 <= i <= pad && buf == plain + seq(i, _ => pad)
    {
      buf := buf + [pad];
      i := i + 1;
    }
    var ivHex := HexEncode(iv);
    var cipherHex := HexEncode(CbcEncrypt(enc, iv, buf));
    out := PREFIX + ivHex + cipherHex;
  }

  /** The padding's length, 0: not a padding. */
  method CheckPad(b: seq<byte>) returns (n: nat)
    ensures n == PadOf(b)
  {
    if b == [] { return 0; }
    var pad := b[|b| - 1];
    if pad == 0 || pad > BLOCK || pad > |b| { return 0; }
    var i := |b| - pad;
    while i < |b|
      invariant |b| - pad <= i <= |b| && forall j :: |b| - pad <= j < i ==> b[j] == pad
    {
      if b[i] != pad { return 0; }
      i := i + 1;
    }
    n := pad;
  }

  method CheckText(p: seq<byte>) returns (ok: bool)
    ensures ok == IsText(p)
  {
    var i := 0;
    while i < |p|
      invariant 0 <= i <= |p| && IsText(p[..i])
    {
      var c := p[i];
      if c < 0x20 && c != 10 && c != 13 && c != 9 { return false; }
      i := i + 1;
    }
    assert p[..i] == p;
    ok := true;
  }

  method Unseal(dec: Cipher, works: bool, maybe: seq<byte>) returns (out: seq<byte>)
    requires MapsBlocks(dec)
    ensures out == Decrypt(dec, works, maybe)
  {
    if !IsEncrypted(maybe) { return maybe; }
    if !works || (|maybe| - 4) % 2 != 0 || (|maybe| - 36) % 32 != 0 { return []; }
    var iv := new byte[BLOCK];
    var ok := HexDecode(maybe[4..36], iv);
    if !ok { return []; }
    var cipher := new byte[(|maybe| - 36) / 2];
    ok := HexDecode(maybe[36..], cipher);
    if !ok { return []; }
    var b := CbcDecrypt(dec, iv[..], cipher[..]);
    var n := CheckPad(b);
    if n == 0 { return []; }
    ok := CheckText(b[..|b| - n]);
    out := if ok then b[..|b| - n] else [];
  }

  // ---- the record's form

  /** ENC:, then hexadecimal digits for at least two blocks of 16 bytes, the IV's among them. */
  lemma ShapeIs(s: seq<byte>)
    ensures LooksEncrypted(s) <==>
      && |s| >= 68 && Spells(s[..4], "ENC:") && (|s| - 4) % 32 == 0
      && forall i :: 4 <= i < |s| ==> HexVal(s[i]) >= 0
    ensures IsEncrypted(s) <==> |s| >= 68 && Spells(s[..4], "ENC:")
  {
    assert Spells(PREFIX, "ENC:");
    if |s| >= 68 {
      if Spells(s[..4], "ENC:") {
        forall i | 0 <= i < 4 ensures s[..4][i] == PREFIX[i] { assert PREFIX[i] as int == "ENC:"[i] as int; }
        assert s[..4] == PREFIX;
      }
      assert forall i :: 4 <= i < |s| ==> s[4..][i - 4] == s[i];
      assert forall i :: 0 <= i < |s| - 4 ==> s[4..][i] == s[i + 4];
    }
    hide HexVal;
  }

  /** Small digits. */
  lemma DigitIs(n: nat)
    requires n < 16
    ensures Digit(n) as int == "0123456789abcdef"[n] as int
  {
    assert "0123456789abcdef"[n] as int == if n < 10 then 48 + n else 87 + n;
  }

  /** Text has tabs and the two line ends, and no other byte below the blank. */
  lemma TextIs(p: seq<byte>)
    ensures IsText(p) <==>
      forall i :: 0 <= i < |p| && p[i] < 32 ==> p[i] as int in {'\t' as int, '\n' as int, '\r' as int}
  {
  }

  /** What is empty, or cannot be encrypted, is left; everything else becomes a record. */
  lemma EncryptsIff(enc: Cipher, dec: Cipher, works: bool, iv: seq<byte>, plain: seq<byte>)
    requires Keyed(enc, dec) && IsBlock(iv)
    ensures if works && plain != [] then LooksEncrypted(Encrypt(enc, works, iv, plain))
            else Encrypt(enc, works, iv, plain) == plain
  {
    RecordsLookEncrypted(enc, dec, iv, plain);
    hide LooksEncrypted, IsEncrypted, Record;
  }
}
