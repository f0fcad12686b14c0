/** What the loader demands of an uploaded or downloaded file before it may boot:
    the image's header, its announced size, its hash and its signature. */
module ImageRules {
  import opened Bytes
  import opened Options
  import opened OtaTrailer

  const SECTOR := 4096
  const HEAD_HOLD := 16
  const HEAD_NEEDED := 112
  const IMAGE_MAGIC := 0xE9
  const APP_DESC_MAGIC := 0xABCD5432

  predicate Aligned(n: int) {
    n % 4096 == 0
  }

  /** The loader's key, chip and libraries: SHA-256, the ECDSA check of a hash and a DER
      signature, the chip-revision check and the bootloader's own validation of the slot. */
  datatype Rules = Rules(sha: seq<byte> -> seq<byte>, verify: (seq<byte>, seq<byte>) -> bool, prodKey: bool,
                         chipId: nat, revisionOk: seq<byte> -> bool, bootable: seq<byte> -> bool, crc: Crc)

  /** size 0: any; an empty signature: none given. */
  datatype Wanted = Wanted(size: nat, sha: Option<seq<byte>>, sig: seq<byte>)

  /** A NUL-terminated field of n bytes, its last byte never part of the text. */
  function Field(p: seq<byte>, at: nat, n: nat): seq<byte>
    requires at + n <= |p|
    decreases n
  {
    if n <= 1 || p[at] == 0 then [] else [p[at]] + Field(p, at + 1, n - 1)
  }

  const LOADER_PROJECT: seq<byte> :=  // "esprack-loader"
    [0x65, 0x73, 0x70, 0x72, 0x61, 0x63, 0x6B, 0x2D, 0x6C, 0x6F, 0x61, 0x64, 0x65, 0x72]

  /** checkHead and the revision check, on the image's first sector. */
  predicate HeadOk(rules: Rules, p: seq<byte>) {
    && |p| >= HEAD_NEEDED
    && p[0] == IMAGE_MAGIC
    && p[12] as int + 256 * (p[13] as int) == rules.chipId
    && FromLe32(p[32..36]) == APP_DESC_MAGIC
    && Field(p, 80, 32) != LOADER_PROJECT
    && rules.revisionOk(p)
  }

  predicate SizeAsAnnounced(announced: nat, imageLen: nat, trailer: bool) {
    announced == 0 || announced == imageLen || (trailer && announced == imageLen + TRAILER)
  }

  predicate Refused(rules: Rules, hash: seq<byte>, sig: seq<byte>) {
    rules.prodKey && !(sig != [] && rules.verify(hash, sig))
  }

  function FirstSector(image: seq<byte>): seq<byte> {
    if |image| <= SECTOR then image else image[..SECTOR]
  }

  /** An image, with the signature of its own trailer (empty: no trailer), passes every check. */
  predicate ImageOk(rules: Rules, slotSize: nat, want: Wanted, image: seq<byte>, own: seq<byte>) {
    && 0 < |image| <= slotSize
    && HeadOk(rules, FirstSector(image))
    && SizeAsAnnounced(want.size, |image|, own != [])
    && (want.sha.Some? ==> rules.sha(image) == want.sha.value)
    && !Refused(rules, rules.sha(image), if want.sig != [] then want.sig else own)
  }

  /** The image in a file: all of it, or all but its signature trailer. */
  function ImageOf(crc: Crc, file: seq<byte>): Split {
    if |file| < TRAILER then Unsigned
    else match ParseTrailer(crc, file[|file| - TRAILER..], |file|)
      case Absent => Unsigned
      case Bad => Corrupt
      case Ok(len, der) => Signed(file[..|file| - TRAILER], der)
  }

  predicate Accepted(rules: Rules, slotSize: nat, want: Wanted, file: seq<byte>) {
    match ImageOf(rules.crc, file)
    case Unsigned => ImageOk(rules, slotSize, want, file, [])
    case Signed(image, der) => ImageOk(rules, slotSize, want, image, der)
    case Corrupt => false
  }

  // ---- what that comes to

  /** An app image for this chip, with its description, that is not the loader's own. */
  lemma HeadOkIff(rules: Rules, p: seq<byte>)
    ensures HeadOk(rules, p) <==>
      && |p| >= 112 && p[0] == 0xE9
      && p[12] as int + 256 * (p[13] as int) == rules.chipId
      && p[32..36] == [0x32, 0x54, 0xCD, 0xAB]
      && !(Spells(p[80..94], "esprack-loader") && p[94] == 0)
      && rules.revisionOk(p)
  {
    if |p| >= 112 {
      LittleEndianOnce(p[32..36], [0x32, 0x54, 0xCD, 0xAB]);
      ProjectIs(p);
    }
  }

  lemma LittleEndianOnce(a: seq<byte>, b: seq<byte>)
    requires |a| == |b| == 4 && FromLe32(b) == APP_DESC_MAGIC
    ensures FromLe32(a) == APP_DESC_MAGIC <==> a == b
  {
    if FromLe32(a) == FromLe32(b) {
      assert a[0] == FromLe32(a) % 256 == b[0];
      assert a[1] == FromLe32(a) / 256 % 256 == b[1];
      assert a[2] == FromLe32(a) / 65536 % 256 == b[2];
      assert a[3] == FromLe32(a) / 16777216 == b[3];
      assert a == b;
    }
  }

  lemma ProjectIs(p: seq<byte>)
    requires |p| >= 112
    ensures Field(p, 80, 32) == LOADER_PROJECT <==> Spells(p[80..94], "esprack-loader") && p[94] == 0
  {
    FieldIs(p, 80, 32, LOADER_PROJECT);
    LoaderSpells();
    var word := "esprack-loader";
    hide LOADER_PROJECT;
    SameSpelling(p[80..94], LOADER_PROJECT, word);
  }

  lemma LoaderSpells()
    ensures Spells(LOADER_PROJECT, "esprack-loader") && |LOADER_PROJECT| == 14 && 0 !in LOADER_PROJECT
  {
  }

  lemma SameSpelling(a: seq<byte>, b: seq<byte>, word: string)
    requires Spells(b, word)
    ensures a == b <==> Spells(a, word)
  {
    if Spells(a, word) {
      assert forall i :: 0 <= i < |a| ==> a[i] as int == word[i] as int == b[i] as int;
    }
  }

  /** A field reads as a text without NULs just when that text and a NUL stand there. */
  lemma {:induction false} FieldIs(p: seq<byte>, at: nat, n: nat, text: seq<byte>)
    requires at + n <= |p| && |text| < n - 1 && 0 !in text
    ensures Field(p, at, n) == text <==> p[at..at + |text|] == text && p[at + |text|] == 0
    decreases n
  {
    if text == [] {
      assert p[at..at] == [];
    } else {
      FieldIs(p, at + 1, n - 1, text[1..]);
      var here := p[at..at + |text|];
      assert here[0] == p[at] && here[1..] == p[at + 1..at + |text|];
      assert here == text <==> here[0] == text[0] && here[1..] == text[1..] by {
        assert here == [here[0]] + here[1..] && text == [text[0]] + text[1..];
      }
      if p[at] != 0 {
        var f := Field(p, at, n);
        assert f[0] == p[at] && f[1..] == Field(p, at + 1, n - 1);
        assert f == text <==> f[0] == text[0] && f[1..] == text[1..] by {
          assert f == [f[0]] + f[1..] && text == [text[0]] + text[1..];
        }
      }
    }
  }

  /** With a production key a signature is required, the wanted one before the trailer's own, and it must verify;
      that is all that the key changes. */
  lemma SignatureIff(rules: Rules, slotSize: nat, want: Wanted, file: seq<byte>)
    requires rules.prodKey
    ensures Accepted(rules, slotSize, want, file) <==>
      && Accepted(rules.(prodKey := false), slotSize, want, file)
      && var hash := rules.sha(ImageBytes(rules.crc, file));
        if want.sig != [] then rules.verify(hash, want.sig)
        else ImageOf(rules.crc, file).Signed? && rules.verify(hash, ImageOf(rules.crc, file).der)
  {
  }

  /** Without one no signature is refused, nor asked for: what passes is an image with a good head that fits the
      slot, is as long as announced, with or without its trailer, and has the hash that was wanted. */
  lemma DevKeyAcceptsIff(rules: Rules, slotSize: nat, want: Wanted, file: seq<byte>)
    requires !rules.prodKey
    ensures var image, parts := ImageBytes(rules.crc, file), ImageOf(rules.crc, file);
      Accepted(rules, slotSize, want, file) <==>
        && !parts.Corrupt? && 0 < |image| <= slotSize
        && HeadOk(rules, if |image| <= 4096 then image else image[..4096])
        && (want.size == 0 || want.size == |image| || (parts.Signed? && want.size == |file|))
        && (want.sha.Some? ==> rules.sha(image) == want.sha.value)
  {
  }

  /** What already dooms a file when `t` is the start of its image. */
  predicate Unfit(rules: Rules, slotSize: nat, want: Wanted, t: seq<byte>) {
    || |t| > slotSize
    || (want.size > 0 && |t| > want.size)
    || (|t| >= SECTOR && !HeadOk(rules, t[..SECTOR]))
  }

  /** A file is refused for its start only if no way to go on would make it acceptable. */
  lemma UnfitIsHopeless(rules: Rules, slotSize: nat, want: Wanted, file: seq<byte>, t: seq<byte>)
    requires Unfit(rules, slotSize, want, t)
    requires |t| + TRAILER <= |file| && t == file[..|t|]
    ensures forall rest :: !Accepted(rules, slotSize, want, file + rest)
  {
    forall rest ensures !Accepted(rules, slotSize, want, file + rest) {
      var whole := file + rest;
      assert t == whole[..|t|];
      var parts := ImageOf(rules.crc, whole);
      if !parts.Corrupt? {
        var image := if parts.Signed? then parts.image else whole;
        assert |t| <= |image| && t == image[..|t|];
        assert |t| >= SECTOR ==> t[..SECTOR] == FirstSector(image);
      }
    }
  }

  lemma UnfitWhole(rules: Rules, slotSize: nat, want: Wanted, image: seq<byte>)
    requires Unfit(rules, slotSize, want, image)
    ensures !ImageOk(rules, slotSize, want, image, [])
  {
    assert |image| >= SECTOR ==> image[..SECTOR] == FirstSector(image);
  }

  lemma BadStart(rules: Rules, slotSize: nat, want: Wanted, start: seq<byte>, t: seq<byte>)
    requires start <= t && |start| >= SECTOR && !HeadOk(rules, FirstSector(start))
    ensures Unfit(rules, slotSize, want, t)
  {
    assert t[..SECTOR] == FirstSector(start);
  }

  /** The image bytes of a file. */
  function ImageBytes(crc: Crc, file: seq<byte>): seq<byte> {
    if ImageOf(crc, file).Signed? then ImageOf(crc, file).image else file
  }

  lemma UnfitGrows(rules: Rules, slotSize: nat, want: Wanted, t: seq<byte>, more: seq<byte>)
    requires Unfit(rules, slotSize, want, t)
    ensures Unfit(rules, slotSize, want, t + more)
  {
    assert |t| >= SECTOR ==> (t + more)[..SECTOR] == t[..SECTOR];
  }

  lemma BadHeadRefused(rules: Rules, slotSize: nat, want: Wanted, file: seq<byte>, image: seq<byte>)
    requires !ImageOf(rules.crc, file).Corrupt? && image == ImageBytes(rules.crc, file)
    requires !HeadOk(rules, FirstSector(image))
    ensures !Accepted(rules, slotSize, want, file)
  {
  }
}
