/** The 128-byte signature trailer of a signed image: how ota_sign.py makes and splits it
    and how the loader's OtaHandoff.cpp reads it. The CRC-32 is a parameter. */
module OtaTrailer {
  import opened Bytes

  const TRAILER := 128
  const SIG_MAX := 72
  const MAGIC: seq<byte> := [0x45, 0x53, 0x52, 0x4B, 0x53, 0x49, 0x47, 0x31]  // "ESRKSIG1"

  type Crc = seq<byte> -> nat

  /** A 32-bit checksum. */
  ghost predicate IsCrc(crc: Crc) {
    forall b :: crc(b) < U32
  }

  datatype Made = Trailer(bytes: seq<byte>) | SignatureLength | ImageTooLong

  function Body(imageLen: nat, der: seq<byte>): (b: seq<byte>)
    requires imageLen < U32 && |der| <= SIG_MAX
    ensures |b| == TRAILER - 4
  {
    MAGIC + Le32(imageLen) + [|der|] + der + Zeros(SIG_MAX - |der|) + Zeros(39)
  }

  /** make_trailer; a struct.pack of a longer image raises. */
  function MakeTrailer(crc: Crc, imageLen: nat, der: seq<byte>): Made {
    if !(8 <= |der| <= SIG_MAX) then SignatureLength
    else if imageLen >= U32 then ImageTooLong
    else
      var body := Body(imageLen, der);
      Trailer(body + Le32(crc(body) % U32))
  }

  datatype Split = Unsigned | Signed(image: seq<byte>, der: seq<byte>) | Corrupt

  /** split_signed. */
  function SplitSigned(crc: Crc, data: seq<byte>): Split {
    if |data| < TRAILER then Unsigned
    else
      var t := data[|data| - TRAILER..];
      if t[..8] != MAGIC then Unsigned
      else if FromLe32(t[124..]) != crc(t[..124]) % U32 then Corrupt
      else
        var imageLen, sigLen := FromLe32(t[8..12]), t[12];
        if imageLen != |data| - TRAILER then Corrupt
        else if !(1 <= sigLen <= SIG_MAX) then Corrupt
        else Signed(data[..imageLen], t[13..13 + sigLen])
  }

  datatype Verdict = Absent | Ok(imageLen: nat, der: seq<byte>) | Bad

  /** parseTrailer: the last bytes of a file of fileLen bytes. */
  function ParseTrailer(crc: Crc, tail: seq<byte>, fileLen: nat): Verdict
    requires |tail| == TRAILER
  {
    if fileLen < TRAILER then Absent
    else if tail[..8] != MAGIC then Absent
    else
      var len, sum, sigLen := FromLe32(tail[8..12]), FromLe32(tail[124..]), tail[12];
      if sum != crc(tail[..124]) then Bad
      else if len != fileLen - TRAILER || sigLen == 0 || sigLen > SIG_MAX then Bad
      else Ok(len, tail[13..13 + sigLen])
  }

  lemma BodyFields(imageLen: nat, der: seq<byte>)
    requires imageLen < U32 && |der| <= SIG_MAX
    ensures var b := Body(imageLen, der);
      b[..8] == MAGIC && b[8..12] == Le32(imageLen) && b[12] == |der| && b[13..13 + |der|] == der
  {
    var head := MAGIC + Le32(imageLen) + [|der|];
    assert Body(imageLen, der) == head + der + (Zeros(SIG_MAX - |der|) + Zeros(39));
  }

  /** The trailer's bytes: the tool's name for it, the image's length and the CRC with their lowest byte first, the
      signature's length, the signature, and zeros. */
  lemma TrailerLayout(crc: Crc, n: nat, der: seq<byte>)
    ensures MakeTrailer(crc, n, der).Trailer? <==> 8 <= |der| <= 72 && n < 0x1_0000_0000
    ensures MakeTrailer(crc, n, der).Trailer? ==>
      var t := MakeTrailer(crc, n, der).bytes;
      && |t| == 128 && (forall i :: 0 <= i < 8 ==> t[i] as int == "ESRKSIG1"[i] as int)
      && n == t[8] as int + 256 * (t[9] as int) + 65536 * (t[10] as int) + 16777216 * (t[11] as int)
      && t[12] == |der| && t[13..13 + |der|] == der && (forall i :: 13 + |der| <= i < 124 ==> t[i] == 0)
      && crc(t[..124]) % 0x1_0000_0000 ==
           t[124] as int + 256 * (t[125] as int) + 65536 * (t[126] as int) + 16777216 * (t[127] as int)
  {
    if MakeTrailer(crc, n, der).Trailer? {
      var body, sum := Body(n, der), Le32(crc(Body(n, der)) % U32);
      BodyFields(n, der);
      Le32RoundTrip(n);
      Le32RoundTrip(crc(body) % U32);
      var t := body + sum;
      assert t[..124] == body && t[..8] == body[..8] && t[8..12] == body[8..12] && t[124..] == sum;
      assert t[13..13 + |der|] == body[13..13 + |der|];
      forall i | 13 + |der| <= i < 124 ensures t[i] == 0 {
        assert body == (MAGIC + Le32(n) + [|der|] + der) + (Zeros(SIG_MAX - |der|) + Zeros(39));
      }
      forall i | 0 <= i < 8 ensures t[i] as int == "ESRKSIG1"[i] as int {
        assert t[i] == t[..8][i] == MAGIC[i];
      }
      assert t[8..12][0] == t[8] && t[8..12][1] == t[9] && t[8..12][2] == t[10] && t[8..12][3] == t[11];
      assert t[124..][0] == t[124] && t[124..][1] == t[125] && t[124..][2] == t[126] && t[124..][3] == t[127];
    }
  }

  /** What makes a file signed: its last 128 bytes bear the name, the right length, a signature of 1 to 72 bytes and
      the right CRC; with the name and not the rest it is damaged. */
  lemma VerdictIs(crc: Crc, file: seq<byte>)
    requires |file| >= 128
    ensures var t, split := file[|file| - 128..], SplitSigned(crc, file);
      var good :=
        && |file| - 128 == t[8] as int + 256 * (t[9] as int) + 65536 * (t[10] as int) + 16777216 * (t[11] as int)
        && 1 <= t[12] <= 72
        && crc(t[..124]) % 0x1_0000_0000 ==
             t[124] as int + 256 * (t[125] as int) + 65536 * (t[126] as int) + 16777216 * (t[127] as int);
      && (split.Unsigned? <==> !Spells(t[..8], "ESRKSIG1"))
      && (split.Signed? <==> Spells(t[..8], "ESRKSIG1") && good)
      && (split.Signed? ==> split == Signed(file[..|file| - 128], t[13..13 + t[12]]))
  {
    var t := file[|file| - 128..];
    var name := "ESRKSIG1";
    assert Spells(MAGIC, name);
    assert t[..8] == MAGIC <==> Spells(t[..8], name) by {
      if Spells(t[..8], name) {
        forall i | 0 <= i < 8 ensures t[..8][i] == MAGIC[i] {
          assert t[..8][i] as int == name[i] as int;
        }
      }
    }
    assert t[8..12][0] == t[8] && t[8..12][1] == t[9] && t[8..12][2] == t[10] && t[8..12][3] == t[11];
    assert t[124..][0] == t[124] && t[124..][1] == t[125] && t[124..][2] == t[126] && t[124..][3] == t[127];
  }

  /** A signed image splits back into itself and its signature. */
  lemma SignedSplitsBack(crc: Crc, image: seq<byte>, der: seq<byte>)
    requires |image| < U32 && 8 <= |der| <= SIG_MAX
    ensures MakeTrailer(crc, |image|, der).Trailer?
    ensures SplitSigned(crc, image + MakeTrailer(crc, |image|, der).bytes) == Signed(image, der)
  {
    var body := Body(|image|, der);
    BodyFields(|image|, der);
    hide Body, Le32, FromLe32;
    var sum := Le32(crc(body) % U32);
    var data := image + (body + sum);
    var t := data[|data| - TRAILER..];
    assert t == body + sum;
    assert t[124..] == sum && t[..124] == body;
    Le32RoundTrip(crc(body) % U32);
    Le32RoundTrip(|image|);
    assert t[..8] == body[..8] && t[8..12] == body[8..12] && t[12] == body[12];
    assert t[13..13 + |der|] == body[13..13 + |der|];
    assert data[..|image|] == image;
  }

  /** The signing tool and the loader read every file the same way. */
  lemma LoaderAgrees(crc: Crc, file: seq<byte>)
    requires IsCrc(crc) && |file| >= TRAILER
    ensures var v := ParseTrailer(crc, file[|file| - TRAILER..], |file|);
      && (v.Absent? <==> SplitSigned(crc, file).Unsigned?)
      && (v.Bad? <==> SplitSigned(crc, file).Corrupt?)
      && (v.Ok? ==> SplitSigned(crc, file) == Signed(file[..v.imageLen], v.der))
  {
    var t := file[|file| - TRAILER..];
    assert crc(t[..124]) < U32;
  }
}
