/** A download of an image into the app slot: the response as its bytes come, in whatever pieces. */
module LoaderPull {
  import opened Bytes
  import opened Options
  import opened OtaTrailer
  import opened ImageRules
  import opened ImageWriter
  import HttpHead
  import Chunked

  const RX := 2048
  const MAX_HOPS := 3

  datatype Response = NoAnswer | NotFollowed | Answer(facts: HttpHead.Facts, body: seq<byte>)

  /** What a server's bytes say. */
  function ResponseOf(sent: seq<byte>): Response {
    var facts := HttpHead.After(HttpHead.START, sent).facts;
    if facts.bad || !facts.done then NoAnswer else Answer(facts, sent[HttpHead.Used(HttpHead.START, sent)..])
  }

  predicate IsRedirect(status: int) {
    300 <= status < 400 && status != 304
  }

  /** The answer to the request, its redirects followed; net: what each hop's server sends. */
  function Arrive(net: seq<Option<seq<byte>>>, hop: nat, followed: seq<byte> -> bool): Response
    decreases MAX_HOPS - hop
  {
    if hop >= |net| || net[hop].None? then NoAnswer
    else
      var r := ResponseOf(net[hop].value);
      if r.NoAnswer? || !IsRedirect(r.facts.status) || hop >= MAX_HOPS then r
      else if followed(r.facts.location) then Arrive(net, hop + 1, followed)
      else Response.NotFollowed
  }

  predicate Welcome(f: HttpHead.Facts, wantSize: nat, slotSize: nat) {
    && f.status == 200 && f.length <= slotSize + TRAILER
    && (wantSize == 0 || f.length < 0 || f.length == wantSize || f.length == wantSize + TRAILER)
  }

  /** The file in the body bytes seen so far. */
  function Decoded(f: HttpHead.Facts, seen: seq<byte>): seq<byte> {
    if f.chunked then Chunked.Output(Chunked.START, seen)
    else if 0 <= f.length < |seen| then seen[..f.length]
    else seen
  }

  predicate Ended(f: HttpHead.Facts, seen: seq<byte>) {
    if f.chunked then Chunked.After(Chunked.START, seen).phase.End? else 0 <= f.length <= |seen|
  }

  /** The file a body carries; none if it is cut off or its encoding is bad. */
  function FileOf(f: HttpHead.Facts, body: seq<byte>): Option<seq<byte>> {
    if Ended(f, body) || (!f.chunked && f.length < 0) then Some(Decoded(f, body)) else None
  }

  lemma DecodedGrows(f: HttpHead.Facts, a: seq<byte>, b: seq<byte>)
    ensures Decoded(f, a) <= Decoded(f, a + b)
    ensures Ended(f, a) ==> Ended(f, a + b) && Decoded(f, a + b) == Decoded(f, a)
    ensures f.chunked && Chunked.After(Chunked.START, a).phase.Bad? ==> FileOf(f, a + b).None?
  {
    if f.chunked {
      Chunked.SplitAnywhere(Chunked.START, a, b);
      var s := Chunked.After(Chunked.START, a);
      if Chunked.Halted(s) { Chunked.HaltedStays(s, b); }
    }
  }

  /** The file that the servers' answers carry to this loader. */
  function Delivered(net: seq<Option<seq<byte>>>, urlOk: bool, followed: seq<byte> -> bool,
                     wantSize: nat, slotSize: nat)
    : Option<seq<byte>>
  {
    if !urlOk then None
    else match Arrive(net, 0, followed)
      case NoAnswer => None
      case NotFollowed => None
      case Answer(f, body) => if Welcome(f, wantSize, slotSize) then FileOf(f, body) else None
  }

  /** A response whose head fits: its facts and its body. */
  lemma ResponseRead(status: seq<byte>, fields: seq<seq<byte>>, body: seq<byte>)
    requires HttpHead.HeadOk(status, fields)
    ensures var h := HttpHead.EncodeHead(status, fields);
      ResponseOf(h + body) ==
      if |h| <= HttpHead.MAX_HEAD then Answer(HttpHead.Meaning(status, fields).(done := true), body) else NoAnswer
  {
    var h := HttpHead.EncodeHead(status, fields);
    HttpHead.HeadRead(status, fields, body);
    HttpHead.MeaningIsGood(status, fields);
    hide *;
    if |h| <= HttpHead.MAX_HEAD { assert (h + body)[|h|..] == body; }
  }

  /** How a server sends a file: in chunks, or as it is. */
  function Sent(f: HttpHead.Facts, file: seq<byte>, m: Chunked.Message): seq<byte> {
    if f.chunked then Chunked.Encode(m) else file
  }

  lemma SentIsRead(f: HttpHead.Facts, file: seq<byte>, m: Chunked.Message, more: seq<byte>)
    requires Chunked.MessageOk(m) && Chunked.AllFit(m) && Chunked.Joined(m.chunks) == file
    requires f.chunked || f.length == |file|
    ensures FileOf(f, Sent(f, file, m) + more) == Some(file)
  {
    if f.chunked {
      Chunked.NothingPastTheEnd(m, more);
    } else {
      assert (file + more)[..|file|] == file;
      assert more == [] ==> file + more == file;
    }
  }

  /** A whole file with its length, or in chunks, arrives as it was; whatever follows it is dropped. */
  lemma ServedIsDelivered(status: seq<byte>, fields: seq<seq<byte>>, file: seq<byte>, m: Chunked.Message,
                          more: seq<byte>,
                          followed: seq<byte> -> bool, wantSize: nat, slotSize: nat)
    requires HttpHead.HeadOk(status, fields) && |HttpHead.EncodeHead(status, fields)| <= HttpHead.MAX_HEAD
    requires Chunked.MessageOk(m) && Chunked.AllFit(m) && Chunked.Joined(m.chunks) == file
    ensures var f := HttpHead.Meaning(status, fields).(done := true);
      var sent := HttpHead.EncodeHead(status, fields) + (Sent(f, file, m) + more);
      (f.chunked || f.length == |file|) && !IsRedirect(f.status) ==>
        Delivered([Some(sent)], true, followed, wantSize, slotSize) ==
        if Welcome(f, wantSize, slotSize) then Some(file) else None
  {
    var f := HttpHead.Meaning(status, fields).(done := true);
    if f.chunked || f.length == |file| {
      ResponseRead(status, fields, Sent(f, file, m) + more);
      SentIsRead(f, file, m, more);
      hide FileOf, ResponseOf, HttpHead.Meaning, HttpHead.EncodeHead, Sent, Welcome;
    }
  }

  /** The first three servers' redirects are followed where they lead, whatever the kind of redirect. */
  lemma RedirectFollowed(net: seq<Option<seq<byte>>>, hop: nat, followed: seq<byte> -> bool)
    requires hop < |net| && net[hop].Some? && ResponseOf(net[hop].value).Answer?
    ensures var f := ResponseOf(net[hop].value).facts;
      hop < 3 && (f.status == 301 || f.status == 302 || f.status == 303 || f.status == 307 || f.status == 308) ==>
        Arrive(net, hop, followed) ==
          if followed(f.location) then Arrive(net, hop + 1, followed) else Response.NotFollowed
  {
  }

  /** Any other status, and a redirect of the fourth, is the answer. */
  lemma AnswerStays(net: seq<Option<seq<byte>>>, hop: nat, followed: seq<byte> -> bool)
    requires hop < |net| && net[hop].Some? && ResponseOf(net[hop].value).Answer?
    ensures var status := ResponseOf(net[hop].value).facts.status;
      status < 300 || status == 304 || status >= 400 || hop >= 3 ==>
        Arrive(net, hop, followed) == ResponseOf(net[hop].value)
  {
  }

  /** A file is delivered from behind three redirects at most; a fourth is no file, nor is a server that says
      anything but 200. */
  lemma {:induction false} BehindRedirects(net: seq<Option<seq<byte>>>, urlOk: bool, followed: seq<byte> -> bool,
                                           wantSize: nat, slotSize: nat, hops: nat)
    requires hops < |net| && forall i :: 0 <= i <= hops ==> net[i].Some? && ResponseOf(net[i].value).Answer?
    requires forall i :: 0 <= i < hops ==>
      ResponseOf(net[i].value).facts.status in {301, 302, 303, 307, 308}
      && followed(ResponseOf(net[i].value).facts.location)
    ensures var last := ResponseOf(net[hops].value);
      && (hops > 3 || !urlOk ==> Delivered(net, urlOk, followed, wantSize, slotSize) == None)
      && (hops <= 3 && urlOk && (last.facts.status < 300 || last.facts.status == 304 || last.facts.status >= 400) ==>
            Delivered(net, urlOk, followed, wantSize, slotSize) ==
            if Welcome(last.facts, wantSize, slotSize) then FileOf(last.facts, last.body) else None)
      && (last.facts.status != 200 ==> !Welcome(last.facts, wantSize, slotSize))
  {
    FollowedTo(net, followed, if hops <= 3 then hops else 3);
    if hops > 3 {
      AnswerStays(net, 3, followed);
    } else {
      AnswerStays(net, hops, followed);
    }
    hide ResponseOf, Arrive, FileOf;
  }

  lemma {:induction false} FollowedTo(net: seq<Option<seq<byte>>>, followed: seq<byte> -> bool, k: nat)
    requires k <= 3 && k < |net| && forall i :: 0 <= i < k ==> net[i].Some? && ResponseOf(net[i].value).Answer?
    requires forall i :: 0 <= i < k ==>
      ResponseOf(net[i].value).facts.status in {301, 302, 303, 307, 308}
      && followed(ResponseOf(net[i].value).facts.location)
    ensures Arrive(net, 0, followed) == Arrive(net, k, followed)
    decreases k
  {
    hide ResponseOf, Arrive;
    if k > 0 {
      FollowedTo(net, followed, k - 1);
      RedirectFollowed(net, k - 1, followed);
    }
  }

  /** A 200 with a file is welcome if it is not too long for the slot and as long as announced, by itself or with
      its 128-byte trailer. */
  lemma WelcomeIff(f: HttpHead.Facts, wantSize: nat, slotSize: nat)
    requires f.length >= 0
    ensures Welcome(f, wantSize, slotSize) <==>
      f.status == 200 && f.length - 128 <= slotSize && (wantSize != 0 ==> f.length - wantSize in {0, 128})
  {
  }

  /** Without a length nothing but the status is asked. */
  lemma WelcomeUntold(f: HttpHead.Facts, wantSize: nat, slotSize: nat)
    requires f.length < 0
    ensures Welcome(f, wantSize, slotSize) <==> f.status == 200
  {
  }

  /** The connection. */
  class Line {
    ghost var errors: nat  // how often recv failed

    constructor ()
      ensures errors == 0
    {
      errors := 0;
    }

    /** One recv: an error or a timeout (-1), the peer's close (0), or some of what it sent. */
    method Recv(sent: seq<byte>, at: nat, rx: array<byte>) returns (k: int)
      requires at <= |sent| && rx.Length > 0
      modifies this, rx
      ensures -1 <= k <= rx.Length && at + k <= |sent|
      ensures k == 0 ==> at == |sent|
      ensures k > 0 ==> rx[..k] == sent[at..at + k]
      ensures errors == old(errors) + if k < 0 then 1 else 0
    {
      k := *;
      if k < 0 || k > rx.Length || at + k > |sent| || (k == 0 && at < |sent|) { k := -1; }
      if k > 0 {
        forall i | 0 <= i < k { rx[i] := sent[at + i]; }
      }
      errors := errors + if k < 0 then 1 else 0;
    }
  }

  /** The head's verdict does not wait for the rest. */
  lemma HeadStops(sent: seq<byte>, at: nat)
    requires at <= |sent| && HttpHead.Halted(HttpHead.After(HttpHead.START, sent[..at]))
    ensures HttpHead.After(HttpHead.START, sent) == HttpHead.After(HttpHead.START, sent[..at])
    ensures HttpHead.Used(HttpHead.START, sent) == HttpHead.Used(HttpHead.START, sent[..at])
  {
    assert sent == sent[..at] + sent[at..];
    HttpHead.SplitAnywhere(HttpHead.START, sent[..at], sent[at..]);
    HttpHead.HaltedStays(HttpHead.After(HttpHead.START, sent[..at]), sent[at..]);
  }

  method MoveToFront(rx: array<byte>, from: nat, n: nat)
    requires from + n <= rx.Length
    modifies rx
    ensures rx[..n] == old(rx[from..from + n])
  {
    forall i | 0 <= i < n { rx[i] := rx[from + i]; }
  }

  /** One more piece of the response to the head; once it is done, the body bytes move to the front of rx. */
  method FeedHead(head: HttpHead.Head, sent: seq<byte>, at: nat, rx: array<byte>, k: nat) returns (extra: nat)
    requires head.Valid() && rx != head.line && !head.done
    requires 0 < k <= rx.Length && at + k <= |sent| && rx[..k] == sent[at..at + k]
    requires head.Now() == HttpHead.After(HttpHead.START, sent[..at]) && !head.bad
    modifies head, head.line, rx
    ensures head.Valid() && head.Now() == HttpHead.After(HttpHead.START, sent[..at + k])
    ensures extra <= k
    ensures head.done && !head.bad ==>
      rx[..extra] == sent[at + k - extra..at + k] && HttpHead.Used(HttpHead.START, sent[..at + k]) == at + k - extra
  {
    ghost var new_ := sent[at..at + k];
    assert sent[..at + k] == sent[..at] + new_;
    HttpHead.SplitAnywhere(HttpHead.START, sent[..at], new_);
    hide *;
    var used := head.Feed(rx, k);
    extra := 0;
    if head.done && !head.bad {
      extra := k - used;
      assert new_[used..] == rx[used..used + extra] == sent[at + used..at + k];
      MoveToFront(rx, used, extra);
    }
  }

  /** The response's head; the body bytes that came with it are left in rx. */
  method Request(line: Line, sent: seq<byte>, rx: array<byte>)
    returns (ok: bool, facts: HttpHead.Facts, at: nat, extra: nat, readFailed: bool)
    requires rx.Length > 0
    modifies line, rx
    ensures line.errors == old(line.errors) + if !ok && readFailed then 1 else 0
    ensures ok ==> extra <= at <= |sent| && extra <= rx.Length && rx[..extra] == sent[at - extra..at]
    ensures ok ==> ResponseOf(sent) == Answer(facts, sent[at - extra..])
    ensures !ok ==> readFailed || ResponseOf(sent).NoAnswer?
  {
    var head := new HttpHead.Head();
    at, extra, readFailed, facts := 0, 0, false, head.Told();
    assert HttpHead.After(HttpHead.START, sent[..0]) == HttpHead.START;
    hide HttpHead.After, HttpHead.Used;
    while !head.done
      invariant at <= |sent| && extra <= rx.Length && head.Valid() && fresh(head) && fresh(head.line)
      invariant line.errors == old(line.errors)
      invariant head.Now() == HttpHead.After(HttpHead.START, sent[..at]) && !head.bad
      invariant head.done ==> extra <= at && rx[..extra] == sent[at - extra..at]
      invariant head.done ==> HttpHead.Used(HttpHead.START, sent[..at]) == at - extra
      decreases |sent| - at, !head.done
    {
      var k := line.Recv(sent, at, rx);
      if k <= 0 {
        assert k == 0 ==> sent[..at] == sent;
        return false, facts, at, extra, k < 0;
      }
      extra := FeedHead(head, sent, at, rx, k);
      at := at + k;
      if head.bad {
        HeadStops(sent, at);
        return false, facts, at, extra, false;
      }
    }
    ok, facts := true, head.Told();
    HeadStops(sent, at);
  }

  /** The first s bytes of the body gave the file bytes fed, and left the chunk decoder in state st. */
  predicate Stored(f: HttpHead.Facts, st: Chunked.State, fed: seq<byte>, body: seq<byte>, s: nat) {
    && s <= |body| && fed == Decoded(f, body[..s])
    && Chunked.Valid(st) && (f.chunked ==> st == Chunked.After(Chunked.START, body[..s]))
  }

  predicate IsEnd(f: HttpHead.Facts, phase: Chunked.Phase, got: nat) {
    if f.chunked then phase.End? else 0 <= f.length <= got
  }

  /** What the state after some of the body says of the whole. */
  lemma StoredTells(f: HttpHead.Facts, st: Chunked.State, fed: seq<byte>, body: seq<byte>, s: nat)
    requires Stored(f, st, fed, body, s)
    ensures fed <= Decoded(f, body) && (FileOf(f, body).Some? ==> FileOf(f, body).value == Decoded(f, body))
    ensures IsEnd(f, st.phase, |fed|) ==> FileOf(f, body) == Some(fed)
    ensures f.chunked && st.phase.Bad? ==> FileOf(f, body).None?
    ensures !IsEnd(f, st.phase, |fed|) && s == |body| ==>
      FileOf(f, body) == if f.chunked || f.length >= 0 then None else Some(fed)
    ensures !IsEnd(f, st.phase, |fed|) && !f.chunked && f.length >= 0 ==> s < f.length
  {
    assert body == body[..s] + body[s..];
    DecodedGrows(f, body[..s], body[s..]);
    hide Chunked.After, Chunked.Output;
    assert s == |body| ==> body[..s] == body;
  }

  /** The data among the n body bytes in rx, moved to its front; got: the file's bytes so far. */
  method Unwrap(f: HttpHead.Facts, dec: Chunked.Decoder, rx: array<byte>, n: nat, got: nat,
                ghost fed: seq<byte>, ghost body: seq<byte>, ghost s: nat) returns (m: nat)
    requires n <= rx.Length && s + n <= |body| && rx[..n] == body[s..s + n]
    requires Stored(f, dec.Now(), fed, body, s) && got == |fed| && got + n < U32
    requires !f.chunked && f.length >= 0 ==> s <= f.length
    modifies dec, rx
    ensures m <= n && Stored(f, dec.Now(), fed + rx[..m], body, s + n)
  {
    m := n;
    ghost var more := body[s..s + n];
    assert body[..s] + more == body[..s + n];
    if f.chunked {
      Chunked.SplitAnywhere(Chunked.START, body[..s], more);
      m := dec.Feed(rx, n, rx);
    } else if f.length >= 0 && (got + n) % U32 > f.length {
      m := f.length - got;
      assert body[..s + n][..f.length] == body[..s] + more[..m];
    }
  }

  /** Unwrap, and whether the body is over or its encoding bad. */
  method Decode(f: HttpHead.Facts, dec: Chunked.Decoder, rx: array<byte>, n: nat, got: nat,
                ghost fed: seq<byte>, ghost body: seq<byte>, ghost s: nat)
    returns (m: nat, sum: nat, ended: bool, bad: bool)
    requires n <= rx.Length && s + n <= |body| && rx[..n] == body[s..s + n]
    requires Stored(f, dec.Now(), fed, body, s) && got == |fed| && got + n < U32
    requires !f.chunked && f.length >= 0 ==> s <= f.length
    modifies dec, rx
    ensures m <= n && sum == got + m && Stored(f, dec.Now(), fed + rx[..m], body, s + n)
    ensures fed + rx[..m] <= Decoded(f, body)
    ensures ended == IsEnd(f, dec.Now().phase, sum)
    ensures bad ==> f.chunked && dec.Now().phase.Bad?
  {
    m := Unwrap(f, dec, rx, n, got, fed, body, s);
    var st := dec.Now();
    sum := (got + m) % U32;
    StoredTells(f, st, fed + rx[..m], body, s + n);
    hide Stored, IsEnd, Decoded, FileOf;
    ended := IsEnd(f, st.phase, sum);
    bad := !ended && f.chunked && st.phase.Bad?;
  }

  /** The request, its redirects followed. */
  method Reach(line: Line, net: seq<Option<seq<byte>>>, followed: seq<byte> -> bool, rx: array<byte>)
    returns (ok: bool, why: Trouble, sent: seq<byte>, facts: HttpHead.Facts, start: nat, extra: nat)
    requires rx.Length > 0
    modifies line, rx
    ensures line.errors == old(line.errors) + if !ok && why.ReadFailed? then 1 else 0
    ensures ok ==> start + extra <= |sent| && extra <= rx.Length && rx[..extra] == sent[start..start + extra]
    ensures ok ==> Arrive(net, 0, followed) == Answer(facts, sent[start..])
    ensures !ok ==>
      || why.ReadFailed?
      || (why.NotAnswered? && Arrive(net, 0, followed).NoAnswer?)
      || (why.NotFollowed? && Arrive(net, 0, followed).NotFollowed?)
  {
    var hop := 0;
    facts, start, extra := HttpHead.START.facts, 0, 0;
    hide ResponseOf;
    while true
      invariant 0 <= hop <= MAX_HOPS && Arrive(net, 0, followed) == Arrive(net, hop, followed)
      invariant line.errors == old(line.errors)
      decreases MAX_HOPS - hop
    {
      sent := [];
      if hop >= |net| || net[hop].None? { return false, NotAnswered, sent, facts, start, extra; }
      sent := net[hop].value;
      var at, readFailed;
      ok, facts, at, extra, readFailed := Request(line, sent, rx);
      if !ok { return false, if readFailed then ReadFailed else NotAnswered, sent, facts, start, extra; }
      start := at - extra;
      if !IsRedirect(facts.status) || hop == MAX_HOPS { return true, NoTrouble, sent, facts, start, extra; }
      if !followed(facts.location) { return false, Trouble.NotFollowed, sent, facts, start, extra; }
      hop := hop + 1;
    }
  }

  datatype Trouble = NoTrouble | BadUrl | NotAnswered | ReadFailed | NotFollowed | NotWelcome
                   | Incomplete | WriterError(error: Error)

  datatype Pull = Ok | Before | After

  /** Whose fault a refusal of a body is: the network's, the flash's, the boot check's, or the file's. */
  ghost predicate BlamedBy(why: Trouble, rules: Rules, size: nat, want: Wanted, file: Option<seq<byte>>,
                           states: seq<seq<byte>>, readErrors: bool, faults: bool)
  {
    match why
    case NoTrouble => file.Some?
    case ReadFailed => readErrors
    case Incomplete => file.None?
    case WriterError(FlashError) => faults
    case WriterError(NotBootable) => exists st :: st in states && !rules.bootable(st)
    case WriterError(_) => file.None? || !Accepted(rules, size, want, file.value)
    case _ => false
  }

  lemma BlameStays(why: Trouble, rules: Rules, size: nat, want: Wanted, file: Option<seq<byte>>,
                   states: seq<seq<byte>>, more: seq<seq<byte>>, readErrors: bool, faults: bool, later: bool)
    requires BlamedBy(why, rules, size, want, file, states, readErrors, faults)
    requires states <= more && (faults ==> later)
    ensures BlamedBy(why, rules, size, want, file, more, readErrors, later)
  {
    hide Accepted;
    assert forall st :: st in states ==> st in more;
  }

  class Puller {
    const w: Writer
    const line: Line
    const rx: array<byte>
    var appValid: bool  // the slot still boots the old app
    var imageIn: bool   // the slot holds the new image

    ghost predicate Valid()
      reads this, w, w.slot, w.hold
    {
      && w.Fixed()
      && rx.Length == RX && rx != w.buf && rx != w.first && rx != w.hold.buf
    }

    constructor (writer: Writer, connection: Line)
      requires writer.Fixed()
      ensures w == writer && line == connection && Valid() && fresh(rx) && appValid && !imageIn
    {
      w, line, appValid, imageIn := writer, connection, true, false;
      rx := new byte[RX];
    }

    /** The writer is under way, and no buffer is another. */
    ghost predicate Ready()
      reads this, w, w.slot, w.hold, w.hold.buf, w.buf, w.first
    {
      Valid() && w.Live()
    }

    lemma SliceOfRest(a: seq<byte>, start: nat, s: nat, k: nat)
      requires start + s + k <= |a|
      ensures a[start..][s..s + k] == a[start + s..start + s + k]
    {
    }

    lemma ReadyTells()
      requires Ready()
      ensures |w.fed| + RX < U32 && 0 < RX
      ensures Valid() && w.History() && rx.Length == RX && rx != w.buf && rx != w.first && rx != w.hold.buf
    {
    }

    /** How a body ended: the whole file is in the writer, or why not. */
    ghost predicate Pulled(f: HttpHead.Facts, body: seq<byte>, why: Trouble)
      reads this, w, w.slot, w.hold, w.hold.buf, w.buf, w.first
    {
      match why
      case NoTrouble => Ready() && FileOf(f, body) == Some(w.fed)
      case Incomplete => Valid() && w.History() && FileOf(f, body).None?
      case ReadFailed => Valid() && w.History()
      case WriterError(e) =>
        Valid() && w.History() && e == w.error && !e.NotBootable? &&
        (e.FlashError? || !Accepted(w.rules, w.slot.size, w.want, Decoded(f, body)))
      case _ => false
    }

    /** Data bytes into the writer. A refusal: no file that goes on like this is acceptable. */
    method Store(m: nat, ghost f: HttpHead.Facts, ghost body: seq<byte>) returns (ok: bool)
      requires Ready() && m <= RX && w.fed + rx[..m] <= Decoded(f, body)
      modifies w`started, w`touched, w`fill, w`hashed, w`error, w`image, w`taken, w`fed
      modifies w.slot, w.first, w.buf, w.hold, w.hold.buf
      ensures w.fed == old(w.fed) + rx[..m]
      ensures if ok then Ready() else Pulled(f, body, WriterError(w.error))
    {
      ok := true;
      ghost var fed, whole := w.fed + rx[..m], Decoded(f, body);
      hide Decoded, Accepted;
      if m > 0 {
        assert fed + whole[|fed|..] == whole;
        ok := w.Feed(rx[..m]);
      } else {
        assert fed == w.fed;
      }
    }

    lemma EndTells(f: HttpHead.Facts, st: Chunked.State, body: seq<byte>, s: nat)
      requires Ready() && Stored(f, st, w.fed, body, s)
      ensures IsEnd(f, st.phase, |w.fed|) ==> Pulled(f, body, NoTrouble)
      ensures f.chunked && st.phase.Bad? ==> Pulled(f, body, Incomplete)
    {
      hide *;
      StoredTells(f, st, w.fed, body, s);
      if IsEnd(f, st.phase, |w.fed|) { Complete(f, body); }
      if f.chunked && st.phase.Bad? { CutShort(f, body, Incomplete); }
    }

    lemma Complete(f: HttpHead.Facts, body: seq<byte>)
      requires Ready() && FileOf(f, body) == Some(w.fed)
      ensures Pulled(f, body, NoTrouble)
    {
      hide FileOf, Decoded, Accepted, Puller.Ready;
    }

    lemma CutShort(f: HttpHead.Facts, body: seq<byte>, why: Trouble)
      requires Ready() && (why.ReadFailed? || (why.Incomplete? && FileOf(f, body).None?))
      ensures Pulled(f, body, why)
    {
      ReadyTells();
      hide FileOf, Decoded, Accepted, Puller.Ready;
    }

    /** The n body bytes in rx go into the writer; now either the file is complete, or the body goes on, or why not. */
    method Digest(f: HttpHead.Facts, dec: Chunked.Decoder, n: nat, got: nat, ghost body: seq<byte>, ghost s: nat)
      returns (why: Trouble, ended: bool, sum: nat)
      requires Ready() && n <= RX && s + n <= |body| && rx[..n] == body[s..s + n]
      requires Stored(f, dec.Now(), w.fed, body, s) && (!f.chunked && f.length >= 0 ==> s <= f.length)
      requires got == |w.fed|
      modifies w`started, w`touched, w`fill, w`hashed, w`error, w`image, w`taken, w`fed
      modifies dec, rx, w.slot, w.first, w.buf, w.hold, w.hold.buf
      ensures why.NoTrouble? && !ended ==> Ready() && sum == |w.fed|
      ensures why.NoTrouble? && !ended ==> Stored(f, dec.Now(), w.fed, body, s + n) && !IsEnd(f, dec.Now().phase, sum)
      ensures !why.ReadFailed? && (!why.NoTrouble? || ended ==> Pulled(f, body, why))
    {
      ReadyTells();
      hide *;
      var m, bad;
      m, sum, ended, bad := Decode(f, dec, rx, n, got, w.fed, body, s);
      var ok := Store(m, f, body);
      why := if !ok then WriterError(w.error) else if bad then Incomplete else NoTrouble;
      if ok { EndTells(f, dec.Now(), body, s + n); }
    }

    /** The peer closed: the end of a body without a length, else too early. */
    lemma StoppedTells(f: HttpHead.Facts, st: Chunked.State, body: seq<byte>, s: nat, why: Trouble)
      requires Ready() && Stored(f, st, w.fed, body, s) && !IsEnd(f, st.phase, |w.fed|)
      requires why.ReadFailed? || (s == |body| && why == if f.chunked || f.length >= 0 then Incomplete else NoTrouble)
      ensures Pulled(f, body, why)
    {
      hide *;
      StoredTells(f, st, w.fed, body, s);
      if why.NoTrouble? { Complete(f, body); } else { CutShort(f, body, why); }
    }

    /** The first s body bytes are in the writer, the next n in rx. */
    ghost predicate Going(f: HttpHead.Facts, st: Chunked.State, body: seq<byte>, s: nat, n: nat, got: nat)
      reads this, w, w.slot, w.hold, w.hold.buf, w.buf, w.first, rx
    {
      && Ready() && n <= RX == rx.Length && s + n <= |body| && rx[..n] == body[s..s + n]
      && Stored(f, st, w.fed, body, s) && got == |w.fed|
      && (!f.chunked && f.length >= 0 ==> s <= f.length)
    }

    lemma GoingTells(f: HttpHead.Facts, st: Chunked.State, body: seq<byte>, s: nat, n: nat, got: nat)
      requires Going(f, st, body, s, n, got)
      ensures Ready() && n <= RX == rx.Length && s + n <= |body| && rx[..n] == body[s..s + n]
      ensures Stored(f, st, w.fed, body, s) && got == |w.fed|
      ensures !f.chunked && f.length >= 0 ==> s <= f.length
    {
      hide Puller.Ready, Stored;
    }

    lemma GoesOn(f: HttpHead.Facts, st: Chunked.State, body: seq<byte>, s: nat, n: nat, got: nat)
      requires Ready() && n <= RX == rx.Length && s + n <= |body| && rx[..n] == body[s..s + n]
      requires Stored(f, st, w.fed, body, s) && got == |w.fed|
      requires !f.chunked && f.length >= 0 ==> s <= f.length
      ensures Going(f, st, body, s, n, got)
    {
      hide Puller.Ready, Stored;
    }

    /** More of the body into rx, or why there is none. */
    method Await(sent: seq<byte>, f: HttpHead.Facts, at: nat, ghost st: Chunked.State, ghost start: nat)
      returns (k: int, why: Trouble)
      requires Ready() && start <= at <= |sent|
      requires Stored(f, st, w.fed, sent[start..], at - start) && !IsEnd(f, st.phase, |w.fed|)
      modifies line, rx
      ensures line.errors == old(line.errors) + if k <= 0 && why.ReadFailed? then 1 else 0
      ensures Ready() && k <= rx.Length == RX && at + k <= |sent|
      ensures k > 0 ==> rx[..k] == sent[start..][at - start..at - start + k]
      ensures k <= 0 ==> Pulled(f, sent[start..], why)
      ensures !f.chunked && f.length >= 0 ==> at - start <= f.length
    {
      hide *;
      ReadyTells();
      StoredTells(f, st, w.fed, sent[start..], at - start);
      k := line.Recv(sent, at, rx);
      why := if k < 0 then ReadFailed else if f.chunked || f.length >= 0 then Incomplete else NoTrouble;
      if k <= 0 {
        StoppedTells(f, st, sent[start..], at - start, why);
      } else {
        SliceOfRest(sent, start, at - start, k);
      }
    }

    /** What is in rx into the writer, and more of the body into rx. */
    method Round(sent: seq<byte>, f: HttpHead.Facts, dec: Chunked.Decoder, at: nat, n: nat, got: nat, ghost start: nat)
      returns (why: Trouble, stopped: bool, k: nat, sum: nat)
      requires start + n <= at <= |sent|
      requires Going(f, dec.Now(), sent[start..], at - n - start, n, got)
      modifies w`started, w`touched, w`fill, w`hashed, w`error, w`image, w`taken, w`fed
      modifies line, dec, rx, w.slot, w.first, w.buf, w.hold, w.hold.buf
      ensures stopped ==> Pulled(f, sent[start..], why)
      ensures line.errors == old(line.errors) + if stopped && why.ReadFailed? then 1 else 0
      ensures !stopped ==> 0 < k && at + k <= |sent| && Going(f, dec.Now(), sent[start..], at - start, k, sum)
    {
      hide *;
      ghost var body := sent[start..];
      GoingTells(f, dec.Now(), body, at - n - start, n, got);
      why, stopped, sum := Digest(f, dec, n, got, body, at - n - start);
      k := 0;
      if why.NoTrouble? && !stopped {
        var j;
        j, why := Await(sent, f, at, dec.Now(), start);
        stopped := j <= 0;
        if j > 0 {
          k := j;
          GoesOn(f, dec.Now(), body, at - start, k, sum);
        }
      } else {
        stopped := true;
      }
    }

    /** Round by round up to the body's end. */
    method Rounds(sent: seq<byte>, f: HttpHead.Facts, dec: Chunked.Decoder, start: nat, extra: nat)
      returns (why: Trouble)
      requires start + extra <= |sent| && Going(f, dec.Now(), sent[start..], 0, extra, 0)
      modifies w`started, w`touched, w`fill, w`hashed, w`error, w`image, w`taken, w`fed
      modifies line, dec, rx, w.slot, w.first, w.buf, w.hold, w.hold.buf
      ensures Pulled(f, sent[start..], why)
      ensures line.errors == old(line.errors) + if why.ReadFailed? then 1 else 0
    {
      hide *;
      var at: nat, n: nat, got: nat := start + extra, extra, 0;
      var stopped := false;
      why := NoTrouble;
      while !stopped
        invariant start + n <= at <= |sent|
        invariant line.errors == old(line.errors) + if stopped && why.ReadFailed? then 1 else 0
        invariant if stopped then Pulled(f, sent[start..], why)
                  else Going(f, dec.Now(), sent[start..], at - n - start, n, got)
        decreases |sent| - at, !stopped
      {
        var k;
        why, stopped, k, got := Round(sent, f, dec, at, n, got, start);
        if !stopped { at, n := at + k, k; }
      }
    }

    /** The body into the writer: all of it, or why not. */
    method PullBody(sent: seq<byte>, f: HttpHead.Facts, start: nat, extra: nat) returns (why: Trouble)
      requires Ready() && w.fed == []
      requires start + extra <= |sent| && extra <= RX && rx[..extra] == sent[start..start + extra]
      modifies w`started, w`touched, w`fill, w`hashed, w`error, w`image, w`taken, w`fed
      modifies line, rx, w.slot, w.first, w.buf, w.hold, w.hold.buf
      ensures Pulled(f, sent[start..], why)
      ensures line.errors == old(line.errors) + if why.ReadFailed? then 1 else 0
    {
      var dec := new Chunked.Decoder();
      SliceOfRest(sent, start, 0, extra);
      assert Going(f, dec.Now(), sent[start..], 0, extra, 0);
      hide *;
      why := Rounds(sent, f, dec, start, extra);
    }

    /** What became of the slot since `mem`: file is what the servers' answer carries. */
    ghost predicate Done(r: Pull, why: Trouble, mem: seq<byte>, trail: seq<seq<byte>>, want: Wanted,
                         file: Option<seq<byte>>,
                         checked: Option<seq<byte>>)
      reads this, w, w.slot, w.hold
    {
      && Valid() && !w.touched && |mem| == |w.slot.mem| && |trail| <= |w.slot.trail|
      && (checked.Some? ==> file.Some? && Accepted(w.rules, w.slot.size, want, file.value))
      && (checked.Some? ==> checked.value == ImageBytes(w.rules.crc, file.value))
      && (forall st :: st in w.slot.trail[|trail|..] ==> CrashSafe(st, checked))
      && match r
         case Ok =>
           && why.NoTrouble? && file.Some? && Accepted(w.rules, w.slot.size, want, file.value)
           && Installed(w.slot.mem, mem, ImageBytes(w.rules.crc, file.value)) && w.rules.bootable(w.slot.mem)
         case Before => !why.NoTrouble? && w.slot.mem == mem && |w.slot.trail| == |trail|
         case After => !why.NoTrouble? && LeftSafe(w.slot.trail[|trail|..], w.slot.mem, mem, checked)
    }

    /** BlamedBy, by what happened since there were so many states of the slot, errors of the connection and faults of
        the slot. */
    ghost predicate Blamed(why: Trouble, want: Wanted, file: Option<seq<byte>>, trail: nat, errors: nat, faults: nat)
      reads w, w.slot, line
    {
      && trail <= |w.slot.trail|
      && BlamedBy(why, w.rules, w.slot.size, want, file, w.slot.trail[trail..], line.errors > errors,
                  w.slot.faults > faults)
    }

    /** A body that did not come through is to blame, or the connection, or the flash. */
    lemma BodyBlames(f: HttpHead.Facts, body: seq<byte>, why: Trouble, errors: nat)
      requires Pulled(f, body, why) && !why.NoTrouble? && (why.ReadFailed? ==> line.errors > errors)
      ensures Blamed(why, w.want, FileOf(f, body), w.from, errors, w.calm)
    {
      hide Accepted, Decoded, FileOf, SafeHistory, Ended;
      FileIsDecoded(f, body);
    }

    lemma FileIsDecoded(f: HttpHead.Facts, body: seq<byte>)
      ensures FileOf(f, body).Some? ==> FileOf(f, body).value == Decoded(f, body)
    {
      hide Decoded, Ended;
    }

    /** So is a file that is refused in the end, or one that does not boot. */
    lemma EndBlames(file: seq<byte>, errors: nat)
      requires w.Fixed() && !w.error.NoError?
      requires w.error.NotBootable? ==> exists st :: st in w.slot.trail[w.from..] && !w.rules.bootable(st)
      requires w.error.FlashError? || w.error.NotBootable? || !Accepted(w.rules, w.slot.size, w.want, file)
      ensures Blamed(WriterError(w.error), w.want, Some(file), w.from, errors, w.calm)
    {
      hide Accepted;
    }

    lemma NoneToBlame(file: seq<byte>, errors: nat)
      requires w.Fixed()
      ensures Blamed(NoTrouble, w.want, Some(file), w.from, errors, w.calm)
    {
    }

    /** The body into the writer and the image's last checks; file: what the body carries. */
    method Fetch(sent: seq<byte>, f: HttpHead.Facts, start: nat, extra: nat, ghost file: Option<seq<byte>>)
      returns (why: Trouble)
      requires Ready() && w.fed == [] && w.checked.None?
      requires start + extra <= |sent| && extra <= RX && rx[..extra] == sent[start..start + extra]
      requires file == FileOf(f, sent[start..])
      modifies w`started, w`touched, w`fill, w`hashed, w`error, w`image, w`taken, w`fed, w`checked
      modifies line, rx, w.slot, w.first, w.buf, w.hold, w.hold.buf
      ensures Valid() && w.History() && Blamed(why, w.want, file, w.from, old(line.errors), w.calm)
      ensures why.NoTrouble? ==> !w.touched && file.Some? && Accepted(w.rules, w.slot.size, w.want, file.value)
      ensures why.NoTrouble? ==>
        Installed(w.slot.mem, w.base, ImageBytes(w.rules.crc, file.value)) && w.rules.bootable(w.slot.mem)
      ensures !why.NoTrouble? && !w.touched ==> w.slot.mem == w.base && |w.slot.trail| == w.from
      ensures w.checked.Some? ==> file.Some? && Accepted(w.rules, w.slot.size, w.want, file.value)
      ensures w.checked.Some? ==> w.checked.value == ImageBytes(w.rules.crc, file.value)
    {
      FileIsDecoded(f, sent[start..]);
      hide FileOf, Accepted, Installed, CrashSafe, LeftSafe, SafeHistory, Decoded, ImageBytes, BlamedBy, Puller.Blamed;
      ghost var errors := line.errors;
      why := PullBody(sent, f, start, extra);
      if why.NoTrouble? {
        var ok := w.Finish();
        if ok {
          NoneToBlame(w.fed, errors);
        } else {
          why := WriterError(w.error);
          EndBlames(w.fed, errors);
        }
      } else {
        BodyBlames(f, sent[start..], why, errors);
        w.Untouched();
      }
    }

    /** A welcome answer's body into the slot. */
    method Receive(sent: seq<byte>, f: HttpHead.Facts, start: nat, extra: nat, want: Wanted)
      returns (r: Pull, why: Trouble, ghost checked: Option<seq<byte>>)
      requires Valid() && !w.touched
      requires start + extra <= |sent| && extra <= RX && rx[..extra] == sent[start..start + extra]
      modifies line, rx, w, w.slot, w.first, w.buf, w.hold, w.hold.buf
      ensures Done(r, why, old(w.slot.mem), old(w.slot.trail), want, FileOf(f, sent[start..]), checked)
      ensures Blamed(why, want, FileOf(f, sent[start..]), |old(w.slot.trail)|, old(line.errors), old(w.slot.faults))
    {
      hide FileOf, Accepted, Installed, CrashSafe, LeftSafe, SafeHistory, ImageBytes, BlamedBy;
      w.Begin(want);
      why := Fetch(sent, f, start, extra, FileOf(f, sent[start..]));
      checked := w.checked;
      ghost var states, faults := w.slot.trail[w.from..], w.slot.faults > w.calm;
      r := Conclude(why);
      BlameStays(why, w.rules, w.slot.size, want, FileOf(f, sent[start..]), states, w.slot.trail[w.from..],
                 line.errors > old(line.errors), faults, w.slot.faults > old(w.slot.faults));
    }

    /** The end of a download: a failed one is dropped. */
    method Conclude(why: Trouble) returns (r: Pull)
      requires Valid() && w.History() && (why.NoTrouble? ==> !w.touched)
      requires !why.NoTrouble? && !w.touched ==> w.slot.mem == w.base && |w.slot.trail| == w.from
      modifies w`started, w`touched, w`fill, w.slot, w.hold
      ensures Valid() && !w.touched && r.Ok? == why.NoTrouble?
      ensures old(w.slot.trail) <= w.slot.trail && w.slot.faults >= old(w.slot.faults)
      ensures forall st :: st in w.slot.trail[w.from..] ==> CrashSafe(st, w.checked)
      ensures r.Ok? ==> w.slot.mem == old(w.slot.mem)
      ensures r.Before? ==> w.slot.mem == w.base && |w.slot.trail| == w.from
      ensures r.After? ==> LeftSafe(w.slot.trail[w.from..], w.slot.mem, w.base, w.checked)
    {
      hide CrashSafe, LeftSafe, SafeHistory;
      if why.NoTrouble? {
        w.HistoryTells();
        return Pull.Ok;
      }
      r := if w.touched then After else Before;
      w.Abandon();
    }

    /** The cause that is told is the one there was. */
    ghost predicate Caused(why: Trouble, net: seq<Option<seq<byte>>>, urlOk: bool, followed: seq<byte> -> bool,
                           want: Wanted, trail: nat, errors: nat, faults: nat)
      reads w, w.slot, line
    {
      var answer := Arrive(net, 0, followed);
      match why
      case BadUrl => !urlOk
      case NotAnswered => urlOk && answer.NoAnswer?
      case NotFollowed => urlOk && answer.NotFollowed?
      case NotWelcome => urlOk && answer.Answer? && !Welcome(answer.facts, want.size, w.slot.size)
      case ReadFailed => line.errors > errors
      case _ =>
        && urlOk && answer.Answer? && Welcome(answer.facts, want.size, w.slot.size)
        && Blamed(why, want, FileOf(answer.facts, answer.body), trail, errors, faults)
    }

    /** A download, whatever the network does: Ok just when the slot now holds the image of an acceptable file
        that the servers' answer carries; Before: the slot was not touched; After: it no longer boots the old app
        unless no erase worked, and else has a blank head or the file's checked image. */
    method PullOnce(net: seq<Option<seq<byte>>>, urlOk: bool, followed: seq<byte> -> bool, want: Wanted)
      returns (r: Pull, why: Trouble, ghost checked: Option<seq<byte>>)
      requires Valid() && !w.touched
      modifies this`appValid, this`imageIn, line, rx, w, w.slot, w.first, w.buf, w.hold, w.hold.buf
      ensures Done(r, why, old(w.slot.mem), old(w.slot.trail), want,
                   Delivered(net, urlOk, followed, want.size, w.slot.size), checked)
      ensures Caused(why, net, urlOk, followed, want, |old(w.slot.trail)|, old(line.errors), old(w.slot.faults))
      ensures appValid == (old(appValid) && r.Before?) && imageIn == (old(imageIn) || r.Ok?)
    {
      r, checked := Before, None;
      hide FileOf, Accepted, Installed, CrashSafe, LeftSafe, ImageBytes, Arrive;
      if !urlOk { return r, BadUrl, checked; }
      var ok, sent, facts, start, extra;
      ok, why, sent, facts, start, extra := Reach(line, net, followed, rx);
      if !ok { return; }
      if !Welcome(facts, want.size, w.slot.size) { return r, NotWelcome, checked; }
      r, why, checked := Receive(sent, facts, start, extra, want);
      if !r.Before? { appValid := false; }
      if r.Ok? { imageIn := true; }
    }
  }
}
