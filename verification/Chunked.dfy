/** Transfer-Encoding: chunked (section 7.1 of RFC 9112), decoded in place as it arrives. */
module Chunked {
  import opened Bytes

  const SEMICOLON: byte := 59

  datatype Phase = Size | Data | DataEnd | Trailer | End | Bad

  /** The decoder's fields: left is 32 bits wide, digits 8 and lineLen 16. */
  datatype State = State(phase: Phase, left: nat, digits: nat, ext: bool, lineLen: nat)

  const START := State(Phase.Size, 0, 0, false, 0)

  predicate Halted(s: State) {
    s.phase.End? || s.phase.Bad?
  }

  predicate Valid(s: State) {
    && s.left < U32 && s.digits < 256 && s.lineLen < 65536
    && (s.phase.Data? ==> s.left > 0)
  }

  function SizeStep(s: State, c: byte): State {
    var v := HexVal(c);
    if v >= 0 && !s.ext then
      s.(phase := if s.left > 0x0FFF_FFFF then Phase.Bad else s.phase, left := (s.left * 16 + v) % U32,
         digits := (s.digits + 1) % 256)
    else if c == SEMICOLON then s.(ext := true)
    else if c == LF then
      if s.digits == 0 then s.(phase := Phase.Bad)
      else State(if s.left > 0 then Phase.Data else Phase.Trailer, s.left, 0, false, 0)
    else if !s.ext && c != CR && !IsBlank(c) then s.(phase := Phase.Bad)
    else s
  }

  /** One byte of the stream. */
  function Step(s: State, c: byte): (t: State)
    requires Valid(s)
    ensures Valid(t)
  {
    match s.phase
    case Size => SizeStep(s, c)
    case Data => s.(left := s.left - 1, phase := if s.left == 1 then Phase.DataEnd else Phase.Data)
    case DataEnd => if c == LF then s.(phase := Phase.Size) else if c != CR then s.(phase := Phase.Bad) else s
    case Trailer =>
      if c == LF then s.(phase := if s.lineLen == 0 then Phase.End else Phase.Trailer, lineLen := 0)
      else if c != CR then s.(lineLen := (s.lineLen + 1) % 65536)
      else s
    case End => s
    case Bad => s
  }

  function After(s: State, p: seq<byte>): (t: State)
    requires Valid(s)
    ensures Valid(t)
    decreases p
  {
    if p == [] then s else After(Step(s, p[0]), p[1..])
  }

  function Output(s: State, p: seq<byte>): (o: seq<byte>)
    requires Valid(s)
    ensures |o| <= |p|
    decreases p
  {
    if p == [] then [] else (if s.phase.Data? then [p[0]] else []) + Output(Step(s, p[0]), p[1..])
  }

  /** The same bytes in two calls: the same verdict and the same data as in one. */
  lemma {:induction false} SplitAnywhere(s: State, a: seq<byte>, b: seq<byte>)
    requires Valid(s)
    ensures After(s, a + b) == After(After(s, a), b)
    ensures Output(s, a + b) == Output(s, a) + Output(After(s, a), b)
    decreases a
  {
    if a == [] {
      assert a + b == b;
    } else {
      assert (a + b)[1..] == a[1..] + b;
      SplitAnywhere(Step(s, a[0]), a[1..], b);
    }
  }

  lemma {:induction false} HaltedStays(s: State, p: seq<byte>)
    requires Valid(s) && Halted(s)
    ensures After(s, p) == s && Output(s, p) == []
    decreases p
  {
    if p != [] { HaltedStays(s, p[1..]); }
  }

  /** A run of data bytes within a chunk goes straight through. */
  lemma {:induction false} DataRun(s: State, d: seq<byte>)
    requires Valid(s) && s.phase.Data? && 0 < |d| <= s.left
    ensures After(s, d) == s.(left := s.left - |d|, phase := if |d| == s.left then Phase.DataEnd else Phase.Data)
    ensures Output(s, d) == d
    decreases d
  {
    if |d| > 1 { DataRun(Step(s, d[0]), d[1..]); }
  }

  /** Reading `all` from state was: with its first i bytes read, the state is now and the output done. */
  ghost predicate Underway(was: State, now: State, all: seq<byte>, i: nat, done: seq<byte>) {
    && i <= |all| && Valid(was) && now == After(was, all[..i]) && done == Output(was, all[..i])
  }

  lemma FurtherOn(was: State, now: State, all: seq<byte>, i: nat, done: seq<byte>, k: nat)
    requires Underway(was, now, all, i, done) && i + k <= |all|
    ensures Underway(was, After(now, all[i..i + k]), all, i + k, done + Output(now, all[i..i + k]))
    ensures k == 1 && !now.phase.Data? ==> Underway(was, Step(now, all[i]), all, i + 1, done)
  {
    assert all[..i + k] == all[..i] + all[i..i + k];
    SplitAnywhere(was, all[..i], all[i..i + k]);
    if k == 1 && !now.phase.Data? {
      assert all[i..i + 1] == [all[i]];
      assert After(Step(now, all[i]), []) == Step(now, all[i]) && Output(Step(now, all[i]), []) == [];
    }
  }

  lemma StopsHere(was: State, now: State, all: seq<byte>, i: nat, done: seq<byte>)
    requires Underway(was, now, all, i, done) && (i == |all| || Halted(now))
    ensures now == After(was, all) && done == Output(was, all)
  {
    assert all == all[..i] + all[i..];
    SplitAnywhere(was, all[..i], all[i..]);
    if Halted(now) { HaltedStays(now, all[i..]); }
  }

  class Decoder {
    var phase: Phase
    var left: nat
    var digits: nat
    var ext: bool
    var lineLen: nat

    function Now(): State
      reads this
    {
      State(phase, left, digits, ext, lineLen)
    }

    constructor ()
      ensures Now() == START && Valid(Now())
    {
      phase, left, digits, ext, lineLen := Phase.Size, 0, 0, false, 0;
    }

    /** One byte of a size line, a chunk's end or the trailer. */
    method Control(c: byte)
      requires Valid(Now()) && !Halted(Now()) && !phase.Data?
      modifies this
      ensures Now() == Step(old(Now()), c)
    {
      match phase {
        case Size =>
          var v := HexVal(c);
          if v >= 0 && !ext {
            if left > 0x0FFF_FFFF { phase := Phase.Bad; }
            left := (left * 16 + v) % U32;
            digits := (digits + 1) % 256;
          } else if c == SEMICOLON {
            ext := true;
          } else if c == LF {
            if digits == 0 {
              phase := Phase.Bad;
            } else {
              phase := if left > 0 then Phase.Data else Phase.Trailer;
              digits, ext, lineLen := 0, false, 0;
            }
          } else if !ext && c != CR && !IsBlank(c) {
            phase := Phase.Bad;
          }
        case DataEnd =>
          if c == LF {
            phase := Phase.Size;
          } else if c != CR {
            phase := Phase.Bad;
          }
        case Trailer =>
          if c == LF {
            if lineLen == 0 { phase := Phase.End; }
            lineLen := 0;
          } else if c != CR {
            lineLen := (lineLen + 1) % 65536;
          }
      }
    }

    /** k bytes from p[i..] to out[o..]; no byte of p past them is lost, even if out is p. */
    method Move(p: array<byte>, i: nat, n: nat, k: nat, out: array<byte>, o: nat)
      requires o <= i && i + k <= n <= p.Length && n <= out.Length
      modifies out
      ensures out[..o + k] == old(out[..o]) + old(p[i..n])[..k]
      ensures p[i + k..n] == old(p[i..n])[k..]
      ensures out[n..] == old(out[n..])
    {
      ghost var before, data := out[..], p[..];
      assert before[..o] == out[..o] && before[n..] == out[n..] && data[i..n] == p[i..n];
      forall j | 0 <= j < k { out[o + j] := p[i + j]; }
      assert out[..] == before[..o] + data[i..i + k] + before[o + k..];
      Spliced(before, data, i, n, k, o, out[..]);
      assert out[..o + k] == out[..][..o + k] && out[n..] == out[..][n..];
      assert p[..] == if p == out then out[..] else data;
      assert p[i + k..n] == p[..][i + k..n];
    }

    lemma Spliced(before: seq<byte>, data: seq<byte>, i: nat, n: nat, k: nat, o: nat, now: seq<byte>)
      requires o <= i && i + k <= n <= |data| && n <= |before|
      requires now == before[..o] + data[i..i + k] + before[o + k..]
      ensures now[..o + k] == before[..o] + data[i..n][..k]
      ensures data == before ==> now[i + k..n] == data[i..n][k..]
      ensures data[i + k..n] == data[i..n][k..] && now[n..] == before[n..]
    {
      assert |now| == |before|;
      assert forall j :: o + k <= j < |now| ==> now[j] == before[j];
      SameSlice(now, before, i + k, n);
      SameSlice(now, before, n, |now|);
      assert data[i..n][..k] == data[i..i + k] && data[i + k..n] == data[i..n][k..];
      assert now[n..] == now[n..|now|] && before[n..] == before[n..|now|];
    }

    lemma SameSlice(a: seq<byte>, b: seq<byte>, from: nat, to: nat)
      requires from <= to <= |a| == |b| && forall j :: from <= j < to ==> a[j] == b[j]
      ensures a[from..to] == b[from..to]
    {
    }

    /** Data bytes p[i..n], as many as the chunk still has, to out[o..]. */
    method Copy(p: array<byte>, i: nat, n: nat, out: array<byte>, o: nat) returns (k: nat)
      requires Valid(Now()) && phase.Data? && o <= i < n <= p.Length && n <= out.Length
      modifies this`left, this`phase, out
      ensures 0 < k <= n - i && k <= old(left)
      ensures var run := old(p[i..n])[..k];
        Now() == After(old(Now()), run) && out[..o + k] == old(out[..o]) + Output(old(Now()), run)
      ensures p[i + k..n] == old(p[i..n])[k..]
      ensures out[n..] == old(out[n..])
    {
      k := if n - i < left then n - i else left;
      DataRun(Now(), p[i..n][..k]);
      hide Step, After, Output, Valid;
      Move(p, i, n, k, out, o);
      left := left - k;
      if left == 0 { phase := Phase.DataEnd; }
    }

    /** The next data bytes of the chunk under way, or one byte of anything else. */
    method Turn(p: array<byte>, i: nat, n: nat, out: array<byte>, o: nat, ghost was: State, ghost all: seq<byte>)
      returns (i': nat, o': nat)
      requires Valid(Now()) && !Halted(Now()) && o <= i < n <= p.Length && n <= out.Length
      requires |all| == n && p[i..n] == all[i..] && Underway(was, Now(), all, i, out[..o])
      modifies this, out
      ensures o' <= i' && i < i' <= n && Valid(Now()) && p[i'..n] == all[i'..]
      ensures Underway(was, Now(), all, i', out[..o']) && out[n..] == old(out[n..])
    {
      ghost var now, done := Now(), out[..o];
      assert p[i] == p[i..n][0] == all[i..][0] == all[i];
      hide Step, After, Output, Underway;
      if phase.Data? {
        var k := Copy(p, i, n, out, o);
        assert all[i..][..k] == all[i..i + k];
        FurtherOn(was, now, all, i, done, k);
        i', o' := i + k, o + k;
      } else {
        FurtherOn(was, now, all, i, done, 1);
        Control(p[i]);
        i', o' := i + 1, o;
      }
    }

    /** The data bytes of p[..n] into out, which may be p itself. */
    method Feed(p: array<byte>, n: nat, out: array<byte>) returns (o: nat)
      requires Valid(Now()) && n <= p.Length && n <= out.Length
      modifies this, out
      ensures Now() == After(old(Now()), old(p[..n]))
      ensures o <= n && out[..o] == Output(old(Now()), old(p[..n]))
      ensures out[n..] == old(out[n..])
    {
      ghost var was, all := Now(), p[..n];
      o := 0;
      var i := 0;
      assert Underway(was, Now(), all, i, out[..o]);
      hide *;
      while i < n && !Halted(Now())
        invariant o <= i <= n
        invariant Valid(Now()) && p[i..n] == all[i..]
        invariant Underway(was, Now(), all, i, out[..o])
        invariant out[n..] == old(out[n..])
      {
        i, o := Turn(p, i, n, out, o, was, all);
      }
      StopsHere(was, Now(), all, i, out[..o]);
    }
  }

  /** A chunk as its sender writes it: size digits, an extension, the data. */
  datatype Chunk = Chunk(digits: seq<byte>, ext: seq<byte>, data: seq<byte>)

  /** A body: its chunks, the last (empty) chunk's line and the trailer lines. */
  datatype Message = Message(chunks: seq<Chunk>, last: Chunk, trailer: seq<seq<byte>>)

  /** The number that hexadecimal digits spell, going on from n. */
  function Number(n: nat, digits: seq<byte>): (m: nat)
    requires forall c :: c in digits ==> HexVal(c) >= 0
    ensures m >= n
    decreases digits
  {
    if digits == [] then n else Number(16 * n + HexVal(digits[0]), digits[1..])
  }

  /** Blanks, then nothing or a ";" and anything but a line's end. */
  predicate ExtensionOk(ext: seq<byte>) {
    || ext == []
    || (ext[0] == SEMICOLON && LF !in ext)
    || (IsBlank(ext[0]) && ExtensionOk(ext[1..]))
  }

  predicate ChunkOk(c: Chunk) {
    && c.digits != [] && (forall d :: d in c.digits ==> HexVal(d) >= 0)
    && Number(0, c.digits) == |c.data|
    && ExtensionOk(c.ext)
  }

  predicate MessageOk(m: Message) {
    && (forall c :: c in m.chunks ==> ChunkOk(c) && c.data != [])
    && ChunkOk(m.last) && m.last.data == []
    && (forall l :: l in m.trailer ==> l != [] && CR !in l && LF !in l)
  }

  function SizeLine(c: Chunk): seq<byte> {
    c.digits + (c.ext + CRLF)
  }

  function EncodeChunk(c: Chunk): seq<byte> {
    SizeLine(c) + (c.data + CRLF)
  }

  function EncodeChunks(cs: seq<Chunk>): seq<byte> {
    if cs == [] then [] else EncodeChunk(cs[0]) + EncodeChunks(cs[1..])
  }

  function EncodeLines(ls: seq<seq<byte>>): seq<byte> {
    if ls == [] then [] else ls[0] + CRLF + EncodeLines(ls[1..])
  }

  /** All of a body but its very last byte. */
  function AllButTheEnd(m: Message): seq<byte> {
    EncodeChunks(m.chunks) + (SizeLine(m.last) + (EncodeLines(m.trailer) + [CR]))
  }

  function Encode(m: Message): seq<byte> {
    AllButTheEnd(m) + [LF]
  }

  function Joined(cs: seq<Chunk>): seq<byte> {
    if cs == [] then [] else cs[0].data + Joined(cs[1..])
  }

  /** The decoder's own limits: a 32-bit size and an 8-bit count of its digits. */
  predicate Fits(c: Chunk) {
    |c.data| < U32 && |c.digits| % 256 != 0
  }

  predicate AllFit(m: Message) {
    (forall c :: c in m.chunks ==> Fits(c)) && Fits(m.last)
  }

  lemma DigitRead(s: State, c: byte)
    requires Valid(s) && s.phase.Size? && !s.ext && HexVal(c) >= 0
    ensures var n := 16 * s.left + HexVal(c);
      if n < U32 then Step(s, c) == s.(left := n, digits := (s.digits + 1) % 256) else Step(s, c).phase.Bad?
  {
  }

  lemma {:induction false} DigitsRead(s: State, d: seq<byte>)
    requires Valid(s) && s.phase.Size? && !s.ext
    requires forall c :: c in d ==> HexVal(c) >= 0
    ensures Output(s, d) == []
    ensures if Number(s.left, d) < U32
            then After(s, d) == s.(left := Number(s.left, d), digits := (s.digits + |d|) % 256)
            else After(s, d).phase.Bad?
    decreases d
  {
    hide Step, SizeStep, HexVal;
    if d != [] {
      var t := Step(s, d[0]);
      DigitRead(s, d[0]);
      if t.phase.Bad? {
        HaltedStays(t, d[1..]);
      } else {
        DigitsRead(t, d[1..]);
      }
    }
  }

  lemma {:induction false} ExtensionSkipped(s: State, e: seq<byte>)
    requires Valid(s) && s.phase.Size?
    requires if s.ext then LF !in e else ExtensionOk(e)
    ensures After(s, e).(ext := s.ext) == s && Output(s, e) == []
    decreases e
  {
    if e != [] {
      ExtensionSkipped(Step(s, e[0]), e[1..]);
    }
  }

  /** A size line: on to the chunk's data, or bad when the decoder's limits are passed. */
  lemma SizeLineRead(c: Chunk)
    requires ChunkOk(c)
    ensures Output(START, SizeLine(c)) == []
    ensures After(START, SizeLine(c)) ==
      if Fits(c) then State(if c.data == [] then Phase.Trailer else Phase.Data, |c.data|, 0, false, 0)
      else After(START, SizeLine(c)).(phase := Phase.Bad)
  {
    var rest := c.ext + CRLF;
    var s := After(START, c.digits);
    SplitAnywhere(START, c.digits, rest);
    DigitsRead(START, c.digits);
    if s.phase.Bad? {
      HaltedStays(s, rest);
    } else {
      var t := After(s, c.ext);
      SplitAnywhere(s, c.ext, CRLF);
      ExtensionSkipped(s, c.ext);
      assert After(t, CRLF) == Step(Step(t, CR), LF) && Output(t, CRLF) == [] by { CrLf(t); }
    }
  }

  lemma CrLf(s: State)
    requires Valid(s)
    ensures After(s, CRLF) == Step(Step(s, CR), LF)
    ensures !s.phase.Data? ==> Output(s, CRLF) == []
  {
    assert CRLF[1..] == [LF];
    assert After(Step(s, CR), [LF]) == Step(Step(s, CR), LF);
    assert !s.phase.Data? ==> Output(Step(s, CR), [LF]) == [];
  }

  lemma ChunkRead(c: Chunk)
    requires ChunkOk(c) && c.data != []
    ensures Fits(c) ==> After(START, EncodeChunk(c)) == START && Output(START, EncodeChunk(c)) == c.data
    ensures !Fits(c) ==> After(START, EncodeChunk(c)).phase.Bad? && Output(START, EncodeChunk(c)) == []
  {
    var s := After(START, SizeLine(c));
    SplitAnywhere(START, SizeLine(c), c.data + CRLF);
    SizeLineRead(c);
    if Fits(c) {
      SplitAnywhere(s, c.data, CRLF);
      DataRun(s, c.data);
      CrLf(After(s, c.data));
    } else {
      HaltedStays(s, c.data + CRLF);
    }
  }

  /** Chunks up to the first that is past the limits. */
  lemma {:induction false} ChunksRead(cs: seq<Chunk>)
    requires forall c :: c in cs ==> ChunkOk(c) && c.data != []
    ensures if forall c :: c in cs ==> Fits(c)
            then After(START, EncodeChunks(cs)) == START && Output(START, EncodeChunks(cs)) == Joined(cs)
            else After(START, EncodeChunks(cs)).phase.Bad?
  {
    if cs != [] {
      var head, rest := EncodeChunk(cs[0]), EncodeChunks(cs[1..]);
      SplitAnywhere(START, head, rest);
      ChunkRead(cs[0]);
      ChunksRead(cs[1..]);
      if !Fits(cs[0]) { HaltedStays(After(START, head), rest); }
    }
  }

  const TRAILING := State(Phase.Trailer, 0, 0, false, 0)

  lemma {:induction false} LineRead(s: State, l: seq<byte>)
    requires Valid(s) && s.phase.Trailer? && CR !in l && LF !in l
    ensures After(s, l) == s.(lineLen := (s.lineLen + |l|) % 65536) && Output(s, l) == []
    decreases l
  {
    if l != [] { LineRead(Step(s, l[0]), l[1..]); }
  }

  /** Trailer lines leave the trailer open, but for one of a multiple of 65536 bytes. */
  lemma {:induction false} LinesRead(ls: seq<seq<byte>>)
    requires forall l :: l in ls ==> l != [] && CR !in l && LF !in l
    ensures Output(TRAILING, EncodeLines(ls)) == []
    ensures After(TRAILING, EncodeLines(ls)) ==
      if forall l :: l in ls ==> |l| % 65536 != 0 then TRAILING else TRAILING.(phase := Phase.End)
  {
    if ls != [] {
      var l, rest := ls[0], EncodeLines(ls[1..]);
      var s := After(TRAILING, l);
      SplitAnywhere(TRAILING, l + CRLF, rest);
      SplitAnywhere(TRAILING, l, CRLF);
      LineRead(TRAILING, l);
      CrLf(s);
      assert forall r :: r in ls[1..] ==> r in ls;
      LinesRead(ls[1..]);
      if |l| % 65536 == 0 { HaltedStays(After(TRAILING, l + CRLF), rest); }
    }
  }

  lemma AlmostRead(m: Message)
    requires MessageOk(m)
    ensures if AllFit(m)
            then Output(START, AllButTheEnd(m)) == Joined(m.chunks) && After(START, AllButTheEnd(m)) ==
              if forall l :: l in m.trailer ==> |l| % 65536 != 0 then TRAILING else TRAILING.(phase := Phase.End)
            else After(START, AllButTheEnd(m)).phase.Bad?
  {
    var chunks, line, lines := EncodeChunks(m.chunks), SizeLine(m.last), EncodeLines(m.trailer);
    SplitAnywhere(START, chunks, line + (lines + [CR]));
    ChunksRead(m.chunks);
    if After(START, chunks).phase.Bad? {
      HaltedStays(After(START, chunks), line + (lines + [CR]));
    } else {
      SplitAnywhere(START, line, lines + [CR]);
      SizeLineRead(m.last);
      if !Fits(m.last) {
        HaltedStays(After(START, line), lines + [CR]);
      } else {
        SplitAnywhere(TRAILING, lines, [CR]);
        LinesRead(m.trailer);
        var s := After(TRAILING, lines);
        assert After(s, [CR]) == Step(s, CR) == s && Output(s, [CR]) == [];
      }
    }
  }

  /** A body decodes to its chunks' data and ends there, just when every size has fewer than
      2^32 bytes and no multiple of 256 digits; else it is bad. */
  lemma DecodesIff(m: Message)
    requires MessageOk(m)
    ensures After(START, Encode(m)).phase == if AllFit(m) then Phase.End else Phase.Bad
    ensures AllFit(m) ==> Output(START, Encode(m)) == Joined(m.chunks)
  {
    AlmostRead(m);
    SplitAnywhere(START, AllButTheEnd(m), [LF]);
    var s := After(START, AllButTheEnd(m));
    assert After(s, [LF]) == Step(s, LF);
    assert !s.phase.Data? ==> Output(s, [LF]) == [];
    if Halted(s) { HaltedStays(s, [LF]); }
  }

  lemma {:induction false} ZerosSpellNothing(n: nat)
    ensures var z: seq<byte> := seq(n, _ => 48); (forall c :: c in z ==> HexVal(c) == 0) && Number(0, z) == 0
  {
    var z: seq<byte> := seq(n, _ => 48);
    if n > 0 {
      ZerosSpellNothing(n - 1);
      assert z[1..] == seq(n - 1, _ => 48);
    }
  }

  /** 256 zeros for the size of the last chunk: a body that is refused. */
  lemma LongSizeIsBad()
    ensures var m := Message([], Chunk(seq(256, _ => 48), [], []), []);
      MessageOk(m) && After(START, Encode(m)).phase.Bad?
  {
    ZerosSpellNothing(256);
    var m := Message([], Chunk(seq(256, _ => 48), [], []), []);
    assert MessageOk(m) && !AllFit(m);
    hide *;
    DecodesIff(m);
  }

  /** A trailer line of 65536 letters: the body is taken to end at that line's end, its own end not yet read. */
  lemma LongTrailerEndsEarly()
    ensures var m := Message([], Chunk([48], [], []), [seq(65536, _ => 97)]);
      MessageOk(m) && AllFit(m) && After(START, AllButTheEnd(m)).phase.End?
  {
    var m := Message([], Chunk([48], [], []), [seq(65536, _ => 97)]);
    assert |m.trailer[0]| % 65536 == 0 && m.trailer[0] in m.trailer;
    assert MessageOk(m) && AllFit(m) by { assert Number(0, [48]) == Number(0, []) == 0; }
    hide *;
    AlmostRead(m);
  }

  /** A chunk of 26 bytes as a server may write it, and the end of the body. */
  lemma ExampleBody(line: seq<byte>, data: seq<byte>, end: seq<byte>)
    requires Spells(line, "1a \t;b=c\r\n") && |data| == 26 && Spells(end, "\r\n0\r\n\r\n")
    ensures After(START, line + (data + end)).phase.End? && Output(START, line + (data + end)) == data
  {
    var c := Chunk(line[..2], line[2..8], data);
    var m := Message([c], Chunk(end[2..3], [], []), []);
    ExampleBytes(line, end);
    assert c.digits == [49, 97] && c.ext == [32, 9, 59, 98, 61, 99] && m.last.digits == [48];
    hide HexVal, IsBlank;
    assert EncodeChunk(c) == line + (data + CRLF);
    assert EncodeChunks(m.chunks) == EncodeChunk(c) by { assert m.chunks[1..] == []; }
    assert Joined(m.chunks) == data by { assert m.chunks[1..] == []; }
    assert SizeLine(m.last) == end[2..5] && EncodeLines(m.trailer) == [];
    assert Encode(m) == line + (data + end);
    ExampleIsOk(m);
    hide *;
    DecodesIff(m);
  }

  lemma ExampleBytes(line: seq<byte>, end: seq<byte>)
    requires Spells(line, "1a \t;b=c\r\n") && Spells(end, "\r\n0\r\n\r\n")
    ensures line == [49, 97, 32, 9, 59, 98, 61, 99, CR, LF] && end == [CR, LF, 48, CR, LF, CR, LF]
  {
  }

  lemma ExampleIsOk(m: Message)
    requires m.last == Chunk([48], [], []) && m.trailer == [] && |m.chunks| == 1
    requires var c := m.chunks[0]; c.digits == [49, 97] && c.ext == [32, 9, 59, 98, 61, 99] && |c.data| == 26
    ensures MessageOk(m) && AllFit(m)
  {
    ExampleNumber();
    ExampleExtension();
    hide Number, ExtensionOk, HexVal;
    assert ChunkOk(m.chunks[0]) by { assert forall d :: d in m.chunks[0].digits ==> d == 49 || d == 97; }
  }

  lemma ExampleNumber()
    ensures HexVal(48) == 0 && HexVal(49) == 1 && HexVal(97) == 10
    ensures var d: seq<byte>, z: seq<byte> := [49, 97], [48]; Number(0, d) == 26 && Number(0, z) == 0
  {
    var d: seq<byte>, last: seq<byte>, z: seq<byte> := [49, 97], [97], [48];
    assert d[1..] == last && last[1..] == [] && z[1..] == [];
    assert Number(0, d) == Number(1, last) == Number(26, []) == 26 && Number(0, z) == Number(0, []) == 0;
  }

  lemma ExampleExtension()
    ensures ExtensionOk([32, 9, 59, 98, 61, 99]) && ExtensionOk([])
  {
    var a: seq<byte>, b: seq<byte>, e: seq<byte> := [32, 9, 59, 98, 61, 99], [9, 59, 98, 61, 99], [59, 98, 61, 99];
    assert a[1..] == b && b[1..] == e && e[0] == SEMICOLON && LF !in e;
    assert ExtensionOk(e) && ExtensionOk(b) && ExtensionOk(a);
  }

  /** Whatever follows a body is left alone. */
  lemma NothingPastTheEnd(m: Message, more: seq<byte>)
    requires MessageOk(m) && AllFit(m)
    ensures Output(START, Encode(m) + more) == Joined(m.chunks) && After(START, Encode(m) + more).phase.End?
  {
    DecodesIff(m);
    SplitAnywhere(START, Encode(m), more);
    HaltedStays(After(START, Encode(m)), more);
  }

  /** A body cut off anywhere is seen to be unfinished, and what came of it is right. */
  lemma CutOffIsSeen(m: Message, cut: nat)
    requires MessageOk(m) && AllFit(m) && cut < |Encode(m)|
    requires forall l :: l in m.trailer ==> |l| % 65536 != 0
    ensures !Halted(After(START, Encode(m)[..cut]))
    ensures Output(START, Encode(m)[..cut]) <= Joined(m.chunks)
  {
    var all, begun := AllButTheEnd(m), Encode(m)[..cut];
    assert all == begun + all[cut..];
    AlmostRead(m);
    SplitAnywhere(START, begun, all[cut..]);
    if Halted(After(START, begun)) { HaltedStays(After(START, begun), all[cut..]); }
  }
}
