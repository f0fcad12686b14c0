/** A ustar archive (pax utility, IEEE Std 1003.1) streamed through buffers of any size. */
module TarStream {
  import opened Bytes

  const RECORD := 512
  const SLASH: byte := 47
  const ZERO: byte := 48

  /** A file or directory; readable: the file opens; content: what reading it gives. */
  datatype Entry = Entry(name: seq<byte>, isDir: bool, size: nat, mtime: nat, readable: bool, content: seq<byte>)

  // ---- the reference archive

  function StripSlashes(name: seq<byte>): seq<byte> {
    if name != [] && name[0] == SLASH then StripSlashes(name[1..]) else name
  }

  /** The name as the archive has it, its last 100 bytes at most. */
  function ArchiveName(e: Entry): (n: seq<byte>)
    ensures |n| <= 100
  {
    var bare := StripSlashes(e.name);
    var full := if e.isDir && (bare == [] || bare[|bare| - 1] != SLASH) then bare + [SLASH] else bare;
    if |full| > 100 then full[|full| - 100..] else full
  }

  /** v in n octal digits. */
  function Octal(v: nat, n: nat): (d: seq<byte>)
    ensures |d| == n
  {
    if n == 0 then [] else Octal(v / 8, n - 1) + [ZERO + v % 8]
  }

  function OctalValue(d: seq<byte>): int {
    if d == [] then 0 else 8 * OctalValue(d[..|d| - 1]) + (d[|d| - 1] as int - 48)
  }

  function PowerOf8(n: nat): nat {
    if n == 0 then 1 else 8 * PowerOf8(n - 1)
  }

  lemma {:induction false} OctalReads(v: nat, n: nat)
    requires v < PowerOf8(n)
    ensures OctalValue(Octal(v, n)) == v
  {
    if n > 0 {
      OctalReads(v / 8, n - 1);
      assert Octal(v, n)[..n - 1] == Octal(v / 8, n - 1);
    }
  }

  /** The header up to its size: name, mode, owner and group. */
  function Front(e: Entry): (b: seq<byte>)
    ensures |b| == 124
  {
    ArchiveName(e) + Zeros(100 - |ArchiveName(e)|)
    + (Octal(if e.isDir then 493 else 420, 7) + [0]) + (Octal(0, 7) + [0]) + (Octal(0, 7) + [0])
  }

  /** The header up to its checksum: then size and time of change. */
  function Before(e: Entry): (b: seq<byte>)
    ensures |b| == 148
  {
    Front(e) + (Octal(if e.isDir then 0 else e.size % U32, 11) + [0]) + (Octal(e.mtime % U32, 11) + [0])
  }

  const USTAR: seq<byte> := [117, 115, 116, 97, 114, 0, 48, 48]

  /** The header past its checksum: type and magic. */
  function Past(e: Entry): (p: seq<byte>)
    ensures |p| == 356
  {
    [if e.isDir then 53 else 48] + Zeros(100) + USTAR + Zeros(247)
  }

  function Sum(b: seq<byte>): (s: nat)
    ensures s <= 255 * |b|
  {
    if b == [] then 0 else Sum(b[..|b| - 1]) + b[|b| - 1] as nat
  }

  function Blanks(): (b: seq<byte>)
    ensures |b| == 8
  {
    seq(8, _ => SPACE)
  }

  function Checksum(e: Entry): nat {
    Sum(Before(e) + Blanks() + Past(e))
  }

  function Header(e: Entry): (h: seq<byte>)
    ensures |h| == RECORD
  {
    Before(e) + (Octal(Checksum(e), 6) + [0, SPACE]) + Past(e)
  }

  /** The checksum always fits its six digits, and is the sum of the header with blanks in its place. */
  lemma ChecksumReads(e: Entry)
    ensures Checksum(e) < PowerOf8(6)
    ensures OctalValue(Header(e)[148..154]) == Checksum(e)
    ensures Checksum(e) == Sum(Header(e)[..148] + Blanks() + Header(e)[156..])
  {
    assert PowerOf8(3) == 512 && PowerOf8(6) == 262144;
    OctalReads(Checksum(e), 6);
    var h := Header(e);
    assert h[148..154] == Octal(Checksum(e), 6) && h[..148] == Before(e) && h[156..] == Past(e);
  }

  lemma Slice(front: seq<byte>, field: seq<byte>, end: seq<byte>, time: seq<byte>, sum: seq<byte>, past: seq<byte>)
    requires |front| == 124 && |field| == 11
    ensures ((front + (field + end) + time) + sum + past)[124..135] == field
  {
  }

  /** A file's size below 2^32 reads back from its header. */
  lemma SizeReads(e: Entry)
    requires !e.isDir && e.size < U32
    ensures OctalValue(Header(e)[124..135]) == e.size
  {
    Power11();
    OctalReads(e.size, 11);
    SizeField(e);
    hide *;
  }

  lemma Power11()
    ensures U32 < PowerOf8(11)
  {
    assert PowerOf8(4) == 4096 && PowerOf8(8) == 16777216 && PowerOf8(11) == 8589934592;
  }

  lemma HeaderFields(e: Entry)
    requires !e.isDir && e.size < U32
    ensures Header(e) == (Front(e) + (Octal(e.size, 11) + [0]) + (Octal(e.mtime % U32, 11) + [0]))
      + (Octal(Checksum(e), 6) + [0, SPACE]) + Past(e)
  {
    hide Octal, Front, Past, Checksum;
  }

  lemma SizeField(e: Entry)
    requires !e.isDir && e.size < U32
    ensures Header(e)[124..135] == Octal(e.size, 11)
  {
    hide *;
    HeaderFields(e);
    Slice(Front(e), Octal(e.size, 11), [0], Octal(e.mtime % U32, 11) + [0],
          Octal(Checksum(e), 6) + [0, SPACE], Past(e));
  }

  predicate HasData(e: Entry) {
    !e.isDir && e.size > 0
  }

  /** The file's bytes, as many as its size says: zeros where it has become shorter. */
  function Data(e: Entry): (d: seq<byte>)
    ensures |d| == if HasData(e) then e.size else 0
  {
    if !HasData(e) then []
    else if |e.content| >= e.size then e.content[..e.size]
    else e.content + Zeros(e.size - |e.content|)
  }

  function PadLength(e: Entry): (n: nat)
    ensures n < RECORD && (if HasData(e) then (e.size + n) % 512 == 0 else n == 0)
  {
    if HasData(e) then (RECORD - e.size % RECORD) % RECORD else 0
  }

  function Member(e: Entry): seq<byte> {
    if HasData(e) && !e.readable then [] else Header(e) + Data(e) + Zeros(PadLength(e))
  }

  function Archive(es: seq<Entry>): seq<byte> {
    if es == [] then Zeros(1024) else Member(es[0]) + Archive(es[1..])
  }

  lemma WholeMember(e: Entry)
    ensures |Member(e)| % 512 == 0
  {
    hide Header, Data, PadLength;
  }

  lemma SumOfWhole(a: nat, b: nat)
    requires a % 512 == 0 && b % 512 == 0
    ensures (a + b) % 512 == 0
  {
  }

  /** The archive is a whole number of records. */
  lemma {:induction false} WholeRecords(es: seq<Entry>)
    ensures |Archive(es)| % 512 == 0
  {
    hide Member;
    if es != [] {
      WholeMember(es[0]);
      WholeRecords(es[1..]);
      SumOfWhole(|Member(es[0])|, |Archive(es[1..])|);
    }
  }

  // ---- the stream

  datatype Phase = NextEntry | InHeader | InData | Padding | AfterEntry | EndBlocks | Done

  datatype State = State(entries: seq<Entry>, idx: nat, phase: Phase, hdr: seq<byte>, hdrPos: nat, dataPos: nat,
                         pad: nat, ended: nat)

  predicate Good(s: State) {
    && s.idx <= |s.entries| && |s.hdr| == RECORD
    && (s.phase.InHeader? ==>
          s.idx < |s.entries| && s.hdrPos < RECORD && s.hdr == Header(s.entries[s.idx]) && Opens(s.entries[s.idx]))
    && (s.phase.InData? ==>
          s.idx < |s.entries| && HasData(s.entries[s.idx]) &&
          s.dataPos < s.entries[s.idx].size && Opens(s.entries[s.idx]))
    && (s.phase.Padding? || s.phase.AfterEntry? ==> s.idx < |s.entries|)
    && (s.phase.Padding? ==> s.pad > 0)
    && (s.phase.EndBlocks? ==> s.idx == |s.entries| && s.ended < 1024)
    && (s.phase.Done? ==> s.idx == |s.entries|)
    && (s.ended > 0 ==> s.phase.EndBlocks? || s.phase.Done?)
  }

  predicate Opens(e: Entry) {
    HasData(e) ==> e.readable
  }

  /** What comes past the current entry, its data, its header. */
  function PastEntry(es: seq<Entry>, i: nat): seq<byte>
    requires i < |es|
  {
    Archive(es[i + 1..])
  }

  function PastData(es: seq<Entry>, i: nat): seq<byte>
    requires i < |es|
  {
    Zeros(PadLength(es[i])) + PastEntry(es, i)
  }

  function PastHeader(es: seq<Entry>, i: nat): seq<byte>
    requires i < |es|
  {
    Data(es[i]) + PastData(es, i)
  }

  /** What the stream has still to give. */
  function Rest(s: State): seq<byte>
    requires Good(s)
  {
    match s.phase
    case NextEntry => Archive(s.entries[s.idx..])
    case InHeader => s.hdr[s.hdrPos..] + PastHeader(s.entries, s.idx)
    case InData => Data(s.entries[s.idx])[s.dataPos..] + PastData(s.entries, s.idx)
    case Padding => Zeros(s.pad) + PastEntry(s.entries, s.idx)
    case AfterEntry => PastEntry(s.entries, s.idx)
    case EndBlocks => Zeros(1024 - s.ended)
    case Done => []
  }

  /** How far a phase is from the stream's end within an entry. */
  function Rank(p: Phase): nat {
    match p
    case NextEntry => 6
    case InHeader => 5
    case InData => 4
    case Padding => 3
    case AfterEntry => 2
    case EndBlocks => 1
    case Done => 0
  }

  /** Of two pieces the first n bytes taken, all from the first. */
  lemma Taken(a: seq<byte>, b: seq<byte>, n: nat)
    requires n <= |a|
    ensures (a + b)[..n] == a[..n] && (a + b)[n..] == a[n..] + b
    ensures n == |a| ==> (a + b)[n..] == b
  {
  }

  lemma EndFollows(s: State)
    requires Good(s) && s.phase.NextEntry? && s.idx == |s.entries|
    ensures Rest(s) == Rest(s.(phase := EndBlocks))
  {
    hide Header;
  }

  lemma NextGives(s: State)
    requires Good(s) && s.phase.NextEntry? && s.idx < |s.entries|
    ensures var e := s.entries[s.idx];
      if Opens(e) then Rest(s) == Rest(s.(phase := InHeader, hdr := Header(e), hdrPos := 0))
      else Rest(s) == Rest(s.(idx := s.idx + 1, hdr := Header(e)))
    ensures var e := s.entries[s.idx];
      Good(if Opens(e) then s.(phase := InHeader, hdr := Header(e), hdrPos := 0)
           else s.(idx := s.idx + 1, hdr := Header(e)))
  {
    hide Header, Zeros, Data, PadLength, Archive, Member;
    var e, es := s.entries[s.idx], s.entries[s.idx..];
    assert es[0] == e && es[1..] == s.entries[s.idx + 1..];
    FirstMember(es);
    assert Header(e)[0..] == Header(e);
    Regrouped(Header(e), Data(e), Zeros(PadLength(e)), Archive(es[1..]));
  }

  lemma FirstMember(es: seq<Entry>)
    requires es != []
    ensures Archive(es) == if Opens(es[0]) then Header(es[0]) + Data(es[0]) + Zeros(PadLength(es[0])) + Archive(es[1..])
                           else [] + Archive(es[1..])
  {
    hide Header, Zeros, Data, PadLength;
  }

  lemma Regrouped(a: seq<byte>, b: seq<byte>, c: seq<byte>, d: seq<byte>)
    ensures (a + b + c) + d == a + (b + (c + d)) && [] + d == d
  {
  }

  /** n header bytes given. */
  lemma HeaderGives(s: State, n: nat)
    requires Good(s) && s.phase.InHeader? && s.hdrPos + n <= RECORD
    ensures var e, t := s.entries[s.idx], s.(hdrPos := s.hdrPos + n);
      && n <= |Rest(s)| && Rest(s)[..n] == s.hdr[s.hdrPos..s.hdrPos + n]
      && (t.hdrPos < RECORD ==> Rest(t) == Rest(s)[n..])
      && (t.hdrPos == RECORD && HasData(e) ==> Rest(t.(phase := InData, dataPos := 0)) == Rest(s)[n..])
      && (t.hdrPos == RECORD && !HasData(e) ==> Rest(t.(phase := NextEntry, idx := s.idx + 1)) == Rest(s)[n..])
  {
    hide Header, Archive, Zeros, PadLength, Data, PastHeader, PastData;
    var e, left := s.entries[s.idx], s.hdr[s.hdrPos..];
    Taken(left, PastHeader(s.entries, s.idx), n);
    SliceTaken(s.hdr, s.hdrPos, n);
    PastHeaderIs(s);
    assert Data(e)[0..] == Data(e);
  }

  lemma SliceTaken(h: seq<byte>, at: nat, n: nat)
    requires at + n <= |h|
    ensures h[at..][..n] == h[at..at + n] && h[at..][n..] == h[at + n..] && (at + n == |h| ==> n == |h[at..]|)
  {
  }

  lemma PastHeaderIs(s: State)
    requires s.idx < |s.entries|
    ensures PastHeader(s.entries, s.idx) ==
      if HasData(s.entries[s.idx]) then Data(s.entries[s.idx]) + PastData(s.entries, s.idx)
      else PastEntry(s.entries, s.idx)
  {
    hide Archive;
    assert !HasData(s.entries[s.idx]) ==> Zeros(PadLength(s.entries[s.idx])) == [];
  }

  /** n data bytes given. */
  lemma DataGives(s: State, n: nat)
    requires Good(s) && s.phase.InData? && s.dataPos + n <= s.entries[s.idx].size
    ensures var e, t := s.entries[s.idx], s.(dataPos := s.dataPos + n);
      && n <= |Rest(s)| && Rest(s)[..n] == Data(e)[s.dataPos..s.dataPos + n]
      && (t.dataPos < e.size ==> Rest(t) == Rest(s)[n..])
      && (t.dataPos == e.size && PadLength(e) > 0 ==> Rest(t.(phase := Padding, pad := PadLength(e))) == Rest(s)[n..])
      && (t.dataPos == e.size && PadLength(e) == 0 ==> Rest(t.(phase := AfterEntry, pad := 0)) == Rest(s)[n..])
  {
    hide Archive, Zeros, PadLength, Data, PastData;
    var e, left := s.entries[s.idx], Data(s.entries[s.idx])[s.dataPos..];
    Taken(left, PastData(s.entries, s.idx), n);
    SliceTaken(Data(e), s.dataPos, n);
    PastDataIs(s);
  }

  lemma PastDataIs(s: State)
    requires s.idx < |s.entries|
    ensures PastData(s.entries, s.idx) == Zeros(PadLength(s.entries[s.idx])) + PastEntry(s.entries, s.idx)
    ensures PadLength(s.entries[s.idx]) == 0 ==> PastData(s.entries, s.idx) == PastEntry(s.entries, s.idx)
  {
    hide Archive;
  }

  /** n zeros of the padding given. */
  lemma PadGives(s: State, n: nat)
    requires Good(s) && s.phase.Padding? && n <= s.pad
    ensures var t := s.(pad := s.pad - n);
      && n <= |Rest(s)| && Rest(s)[..n] == Zeros(n)
      && (t.pad > 0 ==> Rest(t) == Rest(s)[n..])
      && (t.pad == 0 ==> Rest(t.(phase := AfterEntry)) == Rest(s)[n..])
  {
    Taken(Zeros(s.pad), PastEntry(s.entries, s.idx), n);
    assert Zeros(s.pad)[..n] == Zeros(n) && Zeros(s.pad)[n..] == Zeros(s.pad - n);
  }

  /** n zeros of the archive's end given. */
  lemma EndGives(s: State, n: nat)
    requires Good(s) && s.phase.EndBlocks? && n <= 1024 - s.ended
    ensures var t := s.(ended := s.ended + n);
      && n <= |Rest(s)| && Rest(s)[..n] == Zeros(n)
      && (t.ended < 1024 ==> Rest(t) == Rest(s)[n..])
      && (t.ended == 1024 ==> Rest(t.(phase := Done)) == Rest(s)[n..])
  {
    assert Zeros(1024 - s.ended)[..n] == Zeros(n) && Zeros(1024 - s.ended)[n..] == Zeros(1024 - s.ended - n);
  }

  /** One read of the file: some of what it has past pos, nothing (or an error) at its end. */
  method ReadFile(e: Entry, pos: nat, n: nat) returns (rd: int, b: seq<byte>)
    requires n > 0
    ensures pos >= |e.content| ==> rd <= 0
    ensures pos < |e.content| ==> 0 < rd <= n && pos + rd <= |e.content| && b == e.content[pos..pos + rd]
  {
    b := [];
    if pos >= |e.content| { return -1, b; }
    rd := *;
    if rd < 1 || rd > n || pos + rd > |e.content| { rd := 1; }
    b := e.content[pos..pos + rd];
  }

  lemma DataRead(e: Entry, pos: nat, n: nat)
    requires HasData(e) && pos + n <= e.size
    ensures pos + n <= |e.content| ==> Data(e)[pos..pos + n] == e.content[pos..pos + n]
    ensures pos >= |e.content| ==> Data(e)[pos..pos + n] == Zeros(n)
  {
  }

  lemma Appended(all: seq<byte>, done: seq<byte>, rest: seq<byte>, left: seq<byte>, n: nat)
    requires |done| <= |rest| && done == rest[..|done|] && left == rest[|done|..] && n <= |left|
    requires |all| == |done| + n && all[..|done|] == done && all[|done|..] == left[..n]
    ensures all == rest[..|done| + n] && left[n..] == rest[|done| + n..]
  {
  }

  /** Some of the entry's data: read, or zeros past the file's end. */
  method ReadData(e: Entry, pos: nat, want: nat) returns (b: seq<byte>)
    requires HasData(e) && want > 0 && pos + want <= e.size
    ensures 0 < |b| <= want && b == Data(e)[pos..pos + |b|]
  {
    var rd;
    rd, b := ReadFile(e, pos, want);
    DataRead(e, pos, if rd <= 0 then want else rd);
    if rd <= 0 { b := Zeros(want); }
  }

  class Stream {
    const entries: seq<Entry>
    var idx: nat
    var phase: Phase
    const hdr: array<byte>
    var hdrPos: nat
    var dataPos: nat
    var pad: nat
    var ended: nat

    function Now(): State
      reads this, hdr
    {
      State(entries, idx, phase, hdr[..], hdrPos, dataPos, pad, ended)
    }

    ghost predicate Valid()
      reads this, hdr
    {
      Good(Now())
    }

    /** What the stream has still to give. */
    ghost function Left(): seq<byte>
      requires Valid()
      reads this, hdr
    {
      Rest(Now())
    }

    constructor (es: seq<Entry>)
      ensures Valid() && fresh(hdr) && entries == es && Left() == Archive(es)
    {
      entries, idx, phase, hdrPos, dataPos, pad, ended := es, 0, NextEntry, 0, 0, 0, 0;
      hdr := new byte[RECORD];
      new;
      assert es[0..] == es;
    }

    /** buf has n more bytes, the next that the stream had to give. */
    twostate predicate Gave(buf: array<byte>, at: nat, n: nat)
      reads this, hdr, buf
    {
      && at + n <= buf.Length && old(Valid()) && Valid() && n <= |old(Left())|
      && buf[..at] == old(buf[..at]) && buf[at..at + n] == old(Left())[..n]
      && Left() == old(Left())[n..]
    }

    /** A step towards the end: n bytes given, or a phase or an entry further. */
    twostate predicate Nearer(n: nat)
      reads this
    {
      && idx <= |entries|
      && (idx > old(idx)
          || (idx == old(idx) && (Rank(phase) < Rank(old(phase)) || (Rank(phase) == Rank(old(phase)) && n > 0))))
    }

    method Copy(buf: array<byte>, at: nat, b: seq<byte>)
      requires at + |b| <= buf.Length
      modifies buf
      ensures buf[..at] == old(buf[..at]) && buf[at..at + |b|] == b
      ensures buf[at + |b|..] == old(buf[at + |b|..])
    {
      forall i | 0 <= i < |b| { buf[at + i] := b[i]; }
    }

    method GiveHeader(buf: array<byte>, at: nat, room: nat) returns (n: nat)
      requires Valid() && phase.InHeader? && room > 0 && at + room <= buf.Length && buf != hdr
      modifies this`hdrPos, this`idx, this`phase, this`dataPos, buf
      ensures n <= room && Gave(buf, at, n) && Nearer(n)
      ensures buf[at + n..] == old(buf[at + n..])
    {
      hide Header, Rest, Data, Zeros, PadLength, Archive;
      n := if room < RECORD - hdrPos then room else RECORD - hdrPos;
      HeaderGives(Now(), n);
      Copy(buf, at, hdr[hdrPos..hdrPos + n]);
      hdrPos := hdrPos + n;
      if hdrPos >= RECORD {
        if HasData(entries[idx]) {
          dataPos, phase := 0, InData;
        } else {
          idx, phase := idx + 1, NextEntry;
        }
      }
    }

    method GiveData(buf: array<byte>, at: nat, room: nat) returns (n: nat)
      requires Valid() && phase.InData? && room > 0 && at + room <= buf.Length && buf != hdr
      modifies this`phase, this`dataPos, this`pad, buf
      ensures n <= room && Gave(buf, at, n) && Nearer(n)
      ensures buf[at + n..] == old(buf[at + n..])
    {
      hide Header, Rest, Data, Zeros, Archive;
      var e := entries[idx];
      var b := ReadData(e, dataPos, if room < e.size - dataPos then room else e.size - dataPos);
      n := |b|;
      DataGives(Now(), n);
      Copy(buf, at, b);
      dataPos := dataPos + n;
      if dataPos >= e.size {
        pad := (RECORD - e.size % RECORD) % RECORD;
        assert pad == PadLength(e);
        phase := if pad > 0 then Padding else AfterEntry;
      }
    }

    method GivePad(buf: array<byte>, at: nat, room: nat) returns (n: nat)
      requires Valid() && phase.Padding? && room > 0 && at + room <= buf.Length && buf != hdr
      modifies this`phase, this`pad, buf
      ensures n <= room && Gave(buf, at, n) && Nearer(n)
      ensures buf[at + n..] == old(buf[at + n..])
    {
      hide Header, Rest, Data, Archive, Zeros, Member, PadLength;
      n := if room < pad then room else pad;
      PadGives(Now(), n);
      Copy(buf, at, Zeros(n));
      pad := pad - n;
      if pad == 0 { phase := AfterEntry; }
    }

    method GiveEnd(buf: array<byte>, at: nat, room: nat) returns (n: nat)
      requires Valid() && phase.EndBlocks? && room > 0 && at + room <= buf.Length && buf != hdr
      modifies this`phase, this`ended, buf
      ensures n <= room && Gave(buf, at, n) && Nearer(n)
      ensures buf[at + n..] == old(buf[at + n..])
    {
      hide Header, Rest, Data, Archive, Zeros, Member, PadLength;
      n := if room < 1024 - ended then room else 1024 - ended;
      EndGives(Now(), n);
      Copy(buf, at, Zeros(n));
      ended := ended + n;
      if ended >= 1024 { phase := Done; }
    }

    /** A field of the header, which is zero from there on. */
    method Put(at: nat, field: seq<byte>) returns (next: nat)
      requires hdr.Length == RECORD && at + |field| <= RECORD && hdr[at..] == Zeros(RECORD - at)
      modifies hdr
      ensures next == at + |field| && hdr[..next] == old(hdr[..at]) + field && hdr[next..] == Zeros(RECORD - next)
    {
      forall i | 0 <= i < |field| { hdr[at + i] := field[i]; }
      next := at + |field|;
    }

    method PutFront(e: Entry) returns (at: nat)
      requires hdr.Length == RECORD && hdr[0..] == Zeros(RECORD)
      modifies hdr
      ensures at == 124 && hdr[..at] == Front(e) && hdr[at..] == Zeros(RECORD - at)
    {
      hide Octal, ArchiveName, Zeros;
      var name := ArchiveName(e);
      assert hdr[..0] == [];
      at := Put(0, name + Zeros(100 - |name|));
      at := Put(at, Octal(if e.isDir then 493 else 420, 7) + [0]);
      at := Put(at, Octal(0, 7) + [0]);
      at := Put(at, Octal(0, 7) + [0]);
    }

    /** The checksum's field blank: the rest of the header. */
    method PutFields(e: Entry)
      requires hdr.Length == RECORD
      modifies hdr
      ensures hdr[..] == Before(e) + Blanks() + Past(e)
    {
      forall i | 0 <= i < RECORD { hdr[i] := 0; }
      assert hdr[0..] == Zeros(RECORD);
      hide Octal, ArchiveName, Zeros, Front;
      var at := PutFront(e);
      at := Put(at, Octal(if e.isDir then 0 else e.size % U32, 11) + [0]);
      at := Put(at, Octal(e.mtime % U32, 11) + [0]);
      assert hdr[..at] == Before(e);
      at := Put(at, Blanks());
      at := Put(at, [if e.isDir then 53 else 48] + Zeros(100) + USTAR + Zeros(247));
      assert hdr[..at] == hdr[..];
    }

    method Total() returns (sum: nat)
      requires hdr.Length == RECORD
      ensures sum == Sum(hdr[..])
    {
      sum := 0;
      var i := 0;
      while i < RECORD
        invariant 0 <= i <= RECORD && sum == Sum(hdr[..i])
      {
        assert hdr[..i + 1][..i] == hdr[..i];
        sum := sum + hdr[i];
        i := i + 1;
      }
      assert hdr[..i] == hdr[..];
    }

    /** False: the file does not open. */
    method BuildHeader(e: Entry) returns (ok: bool)
      requires hdr.Length == RECORD
      modifies hdr
      ensures hdr[..] == Header(e) && ok == Opens(e)
    {
      PutFields(e);
      var sum := Total();
      hide Before, Past, Sum, Octal, Blanks;
      var digits := Octal(sum, 6) + [0, SPACE];
      forall i | 0 <= i < 8 { hdr[148 + i] := digits[i]; }
      assert hdr[..] == Before(e) + digits + Past(e);
      ok := !HasData(e) || e.readable;
    }

    method Next(ghost buf: array<byte>, ghost at: nat)
      requires Valid() && phase.NextEntry? && at <= buf.Length && buf != hdr
      modifies this`phase, this`idx, this`hdrPos, hdr
      ensures Gave(buf, at, 0) && Nearer(0)
    {
      if idx >= |entries| {
        EndFollows(Now());
        phase := EndBlocks;
      } else {
        NextHeader(buf, at);
      }
    }

    method NextHeader(ghost buf: array<byte>, ghost at: nat)
      requires Valid() && phase.NextEntry? && idx < |entries| && at <= buf.Length && buf != hdr
      modifies this`phase, this`idx, this`hdrPos, hdr
      ensures Gave(buf, at, 0) && Nearer(0)
    {
      ghost var s := Now();
      NextGives(s);
      OpenNext();
      hide Header, Rest, Good;
      assert Rest(s)[0..] == Rest(s) && Rest(s)[..0] == [];
    }

    /** The next entry's header, unless its file does not open. */
    method OpenNext()
      requires hdr.Length == RECORD && idx < |entries|
      modifies this`phase, this`idx, this`hdrPos, hdr
      ensures var s, e := old(Now()), entries[old(idx)];
        if Opens(e) then Now() == s.(phase := InHeader, hdr := Header(e), hdrPos := 0)
        else Now() == s.(idx := s.idx + 1, hdr := Header(e))
    {
      hide Header, Opens;
      var ok := BuildHeader(entries[idx]);
      if ok {
        hdrPos, phase := 0, InHeader;
      } else {
        idx := idx + 1;
      }
    }

    /** The stream, part way through a fill: buf has its first `written` bytes of what there was to give. */
    ghost predicate Filling(buf: array<byte>, written: nat, rest: seq<byte>)
      reads this, hdr, buf
    {
      && Valid() && written <= |rest| && written <= buf.Length
      && buf[..written] == rest[..written] && Left() == rest[written..]
    }

    method Skip(ghost buf: array<byte>, ghost at: nat)
      requires Valid() && phase.AfterEntry? && at <= buf.Length && buf != hdr
      modifies this`phase, this`idx
      ensures Gave(buf, at, 0) && Nearer(0)
    {
      idx, phase := idx + 1, NextEntry;
    }

    /** One turn of fill's loop. */
    method Turn(buf: array<byte>, at: nat, room: nat) returns (n: nat)
      requires Valid() && room > 0 && at + room <= buf.Length && buf != hdr && !phase.Done?
      modifies this, hdr, buf
      ensures n <= room && Gave(buf, at, n) && Nearer(n)
      ensures buf[at + n..] == old(buf[at + n..])
    {
      n := 0;
      hide *;
      match phase {
        case NextEntry => Next(buf, at);
        case InHeader => n := GiveHeader(buf, at, room);
        case InData => n := GiveData(buf, at, room);
        case Padding => n := GivePad(buf, at, room);
        case AfterEntry => Skip(buf, at);
        case EndBlocks => n := GiveEnd(buf, at, room);
      }
    }

    /** The same, with what it means for the fill. */
    method FillOn(buf: array<byte>, written: nat, maxLen: nat, ghost rest: seq<byte>) returns (n: nat)
      requires Filling(buf, written, rest) && written < maxLen <= buf.Length && buf != hdr && !phase.Done?
      modifies this, hdr, buf
      ensures n <= maxLen - written && Filling(buf, written + n, rest) && Nearer(n)
      ensures buf[maxLen..] == old(buf[maxLen..])
    {
      hide Stream.Left, Stream.Valid, Stream.Now, Stream.Nearer, Rest, Good;
      ghost var done, left, tail := buf[..written], Left(), buf[maxLen..];
      n := Turn(buf, written, maxLen - written);
      Appended(buf[..written + n], done, rest, left, n);
      assert buf[written + n..][maxLen - written - n..] == buf[maxLen..];
      assert old(buf[written + n..])[maxLen - written - n..] == tail;
    }

    lemma FillingStarts(buf: array<byte>)
      requires Valid()
      ensures Filling(buf, 0, Left()) && idx <= |entries|
    {
      hide Rest, Header;
      assert Left()[0..] == Left();
    }

    lemma FillingTells(buf: array<byte>, written: nat, rest: seq<byte>)
      requires Filling(buf, written, rest)
      ensures Valid() && written <= |rest| && written <= buf.Length
      ensures buf[..written] == rest[..written] && Left() == rest[written..]
      ensures phase.Done? ==> Left() == []
    {
      hide Archive, Zeros, Data, Header;
    }

    /** The next bytes of the archive, as many as fit; fewer only at its end. */
    method Fill(buf: array<byte>, maxLen: nat) returns (written: nat)
      requires Valid() && maxLen <= buf.Length && buf != hdr
      modifies this, hdr, buf
      ensures Valid() && written <= maxLen && written <= |old(Left())|
      ensures buf[..written] == old(Left())[..written] && Left() == old(Left())[written..]
      ensures written < maxLen ==> Left() == []
      ensures buf[maxLen..] == old(buf[maxLen..])
    {
      hide Stream.Left, Stream.Valid, Stream.Now, Stream.Filling, Rest, Good, Header, Archive, Data;
      written := 0;
      ghost var rest := Left();
      FillingStarts(buf);
      while written < maxLen && !phase.Done?
        invariant written <= maxLen && Filling(buf, written, rest) && idx <= |entries|
        invariant buf[maxLen..] == old(buf[maxLen..])
        decreases |entries| - idx, Rank(phase), maxLen - written
      {
        var n := FillOn(buf, written, maxLen, rest);
        written := written + n;
      }
      FillingTells(buf, written, rest);
    }
  }

  function Total(sizes: seq<nat>): nat {
    if sizes == [] then 0 else Total(sizes[..|sizes| - 1]) + sizes[|sizes| - 1]
  }

  /** One buffer's worth of the stream. */
  method SendOne(s: Stream, size: nat) returns (b: seq<byte>)
    requires s.Valid()
    modifies s, s.hdr
    ensures s.Valid() && |b| <= size && b <= old(s.Left()) && s.Left() == old(s.Left())[|b|..]
    ensures |b| < size ==> s.Left() == []
  {
    var buf := new byte[size];
    hide Stream.Left, Stream.Valid, Stream.Now;
    var n := s.Fill(buf, size);
    b := buf[..n];
  }

  /** Whatever the sizes of the buffers: together they hold the archive, as far as they reach. */
  method Send(es: seq<Entry>, sizes: seq<nat>) returns (sent: seq<byte>)
    ensures sent == Archive(es)[..if Total(sizes) < |Archive(es)| then Total(sizes) else |Archive(es)|]
  {
    var s := new Stream(es);
    hide Archive, Stream.Left, Stream.Valid, Stream.Now;
    sent := [];
    var k := 0;
    while k < |sizes|
      invariant 0 <= k <= |sizes| && s.Valid() && fresh(s) && fresh(s.hdr)
      invariant sent + s.Left() == Archive(es)
      invariant |sent| == Total(sizes[..k]) || (|sent| < Total(sizes[..k]) && s.Left() == [])
    {
      var b := SendOne(s, sizes[k]);
      assert sizes[..k + 1][..k] == sizes[..k];
      sent := sent + b;
      k := k + 1;
    }
    assert sizes[..k] == sizes;
  }

  // ---- names and members

  /** The name in the archive: without its leading slashes, a directory's with one at its end, and of a long one the
      last 100 bytes. */
  lemma NameIs(e: Entry, k: nat)
    requires k <= |e.name| && (forall i :: 0 <= i < k ==> e.name[i] as int == '/' as int)
    requires k < |e.name| ==> e.name[k] as int != '/' as int
    ensures var bare := e.name[k..];
      var full := if e.isDir && (bare == [] || bare[|bare| - 1] as int != '/' as int) then bare + [47] else bare;
      ArchiveName(e) == if |full| <= 100 then full else full[|full| - 100..]
  {
    StrippedIs(e.name, k);
  }

  lemma {:induction false} StrippedIs(name: seq<byte>, k: nat)
    requires k <= |name| && (forall i :: 0 <= i < k ==> name[i] == 47) && (k < |name| ==> name[k] != 47)
    ensures StripSlashes(name) == name[k..]
  {
    if k > 0 { StrippedIs(name[1..], k - 1); }
  }

  /** The header's other fixed parts: the mode, the owner, the kind and the format. */
  lemma HeaderIs(e: Entry)
    ensures var h := Header(e);
      && Spells(h[100..107], if e.isDir then "0000755" else "0000644") && h[107] == 0
      && Spells(h[108..115], "0000000") && Spells(h[116..123], "0000000")
      && h[156] as int == (if e.isDir then '5' as int else '0' as int)
      && Spells(h[257..263], "ustar\0") && Spells(h[263..265], "00")
  {
    FrontIs(e);
    PastIs(e);
    HeaderParts(e);
  }

  lemma HeaderParts(e: Entry)
    ensures var h := Header(e); h[..124] == Front(e) && h[156..] == Past(e)
    ensures var h, f := Header(e), Front(e);
      h[100..107] == f[100..107] && h[107] == f[107] && h[108..115] == f[108..115] && h[116..123] == f[116..123]
    ensures var h, p := Header(e), Past(e);
      h[156] == p[0] && h[257..263] == p[101..107] && h[263..265] == p[107..109]
  {
    hide *;
    var h, check := Header(e), Octal(Checksum(e), 6) + [0, SPACE];
    HeaderIsSum(e, check);
    ThreeParts(Before(e), check, Past(e), Front(e));
    Slices(h, Front(e), Past(e));
  }

  lemma HeaderIsSum(e: Entry, check: seq<byte>)
    requires check == Octal(Checksum(e), 6) + [0, SPACE]
    ensures Header(e) == Before(e) + check + Past(e) && Before(e)[..124] == Front(e) && |check| == 8
    ensures |Front(e)| == 124 && |Before(e)| == 148 && |Past(e)| == 356
  {
    hide Front, Past, Octal, Checksum;
  }

  lemma ThreeParts(b: seq<byte>, c: seq<byte>, p: seq<byte>, f: seq<byte>)
    requires |b| == 148 && |c| == 8 && |p| == 356 && |f| == 124 && b[..124] == f
    ensures var h := b + c + p; |h| == 512 && h[..124] == f && h[156..] == p
  {
  }

  lemma Slices(h: seq<byte>, f: seq<byte>, p: seq<byte>)
    requires |h| == 512 && |f| == 124 && |p| == 356 && h[..124] == f && h[156..] == p
    ensures h[100..107] == f[100..107] && h[107] == f[107] && h[108..115] == f[108..115] && h[116..123] == f[116..123]
    ensures h[156] == p[0] && h[257..263] == p[101..107] && h[263..265] == p[107..109]
  {
    assert forall i :: 0 <= i < 124 ==> h[i] == f[i];
    assert forall i :: 0 <= i < 356 ==> h[156 + i] == p[i];
  }

  lemma FrontIs(e: Entry)
    ensures var f := Front(e);
      && Spells(f[100..107], if e.isDir then "0000755" else "0000644") && f[107] == 0
      && Spells(f[108..115], "0000000") && Spells(f[116..123], "0000000")
  {
    var f := Front(e);
    OctalModes();
    assert f[100..107] == Octal(if e.isDir then 493 else 420, 7);
    assert f[108..115] == Octal(0, 7) && f[116..123] == Octal(0, 7);
  }

  lemma OctalModes()
    ensures Spells(Octal(493, 7), "0000755") && Spells(Octal(420, 7), "0000644") && Spells(Octal(0, 7), "0000000")
  {
    hide *;
    ModeSpells(7, 5, 5, "0000755");
    ModeSpells(6, 4, 4, "0000644");
    ModeSpells(0, 0, 0, "0000000");
  }

  lemma ModeSpells(a: nat, b: nat, c: nat, text: string)
    requires a < 8 && b < 8 && c < 8 && |text| == 7 && text[0] == text[1] == text[2] == text[3] == '0'
    requires text[4] as int == 48 + a && text[5] as int == 48 + b && text[6] as int == 48 + c
    ensures Spells(Octal(64 * a + 8 * b + c, 7), text)
  {
    ThreeDigits(a, b, c);
    hide Octal;
  }

  lemma ThreeDigits(a: nat, b: nat, c: nat)
    requires a < 8 && b < 8 && c < 8
    ensures Octal(64 * a + 8 * b + c, 7) == [48, 48, 48, 48, 48 + a, 48 + b, 48 + c]
  {
    OctalStep(8 * a + b, c, 7);
    OctalStep(a, b, 6);
    OctalStep(0, a, 5);
    FourZeros();
    hide Octal;
    assert 8 * (8 * a + b) + c == 64 * a + 8 * b + c;
  }

  lemma OctalStep(v: nat, d: nat, n: nat)
    requires d < 8 && n > 0
    ensures Octal(8 * v + d, n) == Octal(v, n - 1) + [48 + d]
  {
    assert (8 * v + d) / 8 == v && (8 * v + d) % 8 == d;
  }

  lemma FourZeros()
    ensures Octal(0, 4) == [48, 48, 48, 48]
  {
    assert Octal(0, 2) == [48, 48];
  }

  lemma PastIs(e: Entry)
    ensures var p := Past(e);
      && p[0] as int == (if e.isDir then '5' as int else '0' as int)
      && Spells(p[101..107], "ustar\0") && Spells(p[107..109], "00")
  {
    var p := Past(e);
    assert p[101..109] == USTAR;
    assert p[101..107] == USTAR[..6] && p[107..109] == USTAR[6..];
  }

  /** A file that does not open is left out with its header, an empty one or a directory is a header alone, and any
      other has its size in bytes and zeros up to a full record. */
  lemma MemberIs(e: Entry)
    ensures if e.isDir || e.size == 0 then Member(e) == Header(e)
            else if !e.readable then Member(e) == []
            else |Member(e)| == 512 + e.size + (if e.size % 512 == 0 then 0 else 512 - e.size % 512)
  {
    hide Header;
  }
}
