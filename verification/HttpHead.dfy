/** The head of an HTTP/1.1 response, read as it arrives (sections 4 and 5 of RFC 9112). */
module HttpHead {
  import opened Bytes

  const COLON: byte := 58

  const LINE := 300
  const MAX_HEAD := 8192
  const MAX_LOCATION := 256
  const MAX_INT64 := 0x7FFF_FFFF_FFFF_FFFF

  const HTTP1: seq<byte> := [72, 84, 84, 80, 47, 49, 46]  // HTTP/1.
  // content-length:
  const CONTENT_LENGTH: seq<byte> := [99, 111, 110, 116, 101, 110, 116, 45, 108, 101, 110, 103, 116, 104, 58]
  // transfer-encoding:
  const TRANSFER_ENCODING: seq<byte> :=
    [116, 114, 97, 110, 115, 102, 101, 114, 45, 101, 110, 99, 111, 100, 105, 110, 103, 58]
  const LOCATION: seq<byte> := [108, 111, 99, 97, 116, 105, 111, 110, 58]  // location:
  const CHUNKED: seq<byte> := [99, 104, 117, 110, 107, 101, 100]  // chunked

  function Lower(c: byte): byte {
    if 65 <= c <= 90 then c + 32 else c
  }

  /** s starts with prefix, ignoring case. */
  predicate Starts(s: seq<byte>, prefix: seq<byte>) {
    |prefix| <= |s| && forall i :: 0 <= i < |prefix| ==> Lower(s[i]) == Lower(prefix[i])
  }

  predicate Contains(s: seq<byte>, word: seq<byte>) {
    exists k :: 0 <= k < |s| && Starts(s[k..], word)
  }

  /** A C string in a buffer. */
  function Text(l: seq<byte>): seq<byte> {
    if l == [] || l[0] == 0 then [] else [l[0]] + Text(l[1..])
  }

  /** What follows the first colon. */
  function PastColon(s: seq<byte>): seq<byte> {
    if s == [] then [] else if s[0] == COLON then s[1..] else PastColon(s[1..])
  }

  predicate IsDigit(c: byte) {
    48 <= c <= 57
  }

  function SkipBlanks(s: seq<byte>): seq<byte> {
    if s == [] || !IsBlank(s[0]) then s else SkipBlanks(s[1..])
  }

  function SkipSpace(s: seq<byte>): seq<byte> {
    if s != [] && (s[0] == SPACE || 9 <= s[0] <= 13) then SkipSpace(s[1..]) else s
  }

  /** The number that the leading digits of s go on from n. */
  function Decimal(n: nat, s: seq<byte>): (m: nat)
    ensures m >= n
    decreases s
  {
    if s == [] || !IsDigit(s[0]) then n else Decimal(10 * n + (s[0] - 48), s[1..])
  }

  datatype Number = Number(n: int) | NoNumber

  /** What strtol and its kin read: space, a sign, digits. */
  function ParseInt(s: seq<byte>): Number {
    var t := SkipSpace(s);
    var signed := t != [] && (t[0] == 43 || t[0] == 45);
    var d := if signed then t[1..] else t;
    if d == [] || !IsDigit(d[0]) then NoNumber
    else Number((if signed && t[0] == 45 then -1 else 1) * Decimal(0, d))
  }

  /** The value of a header line, from its colon on. */
  function Value(text: seq<byte>): seq<byte> {
    SkipBlanks(PastColon(text))
  }

  /** A Content-Length; -1: not one. */
  function LengthOf(value: seq<byte>): int {
    match ParseInt(value)
    case NoNumber => -1
    case Number(n) => if n < 0 then -1 else if n > MAX_INT64 then MAX_INT64 else n
  }

  /** What the lines so far told. */
  datatype Facts = Facts(first: bool, done: bool, bad: bool, status: int, length: int, chunked: bool,
                         location: seq<byte>)

  datatype State = State(line: seq<byte>, total: nat, facts: Facts)

  const START := State([], 0, Facts(true, false, false, 0, -1, false, []))

  function Status(l: seq<byte>): int
    requires |l| >= 9
  {
    match ParseInt(Text(l[9..])) case Number(n) => n case NoNumber => 0
  }

  function StatusLine(f: Facts, l: seq<byte>): Facts {
    if !Starts(Text(l), HTTP1) || |l| < 12 || l[8] != SPACE then f.(first := false, bad := true)
    else f.(first := false, status := Status(l), bad := f.bad || Status(l) < 100 || Status(l) > 599)
  }

  datatype Name = ContentLength | TransferEncoding | Location | OtherName

  function NameOf(text: seq<byte>): Name {
    if COLON !in text then OtherName
    else if Starts(text, CONTENT_LENGTH) then ContentLength
    else if Starts(text, TRANSFER_ENCODING) then TransferEncoding
    else if Starts(text, LOCATION) then Location
    else OtherName
  }

  function HeaderLine(f: Facts, text: seq<byte>): Facts {
    match NameOf(text)
    case ContentLength => f.(length := LengthOf(Value(text)))
    case TransferEncoding => f.(chunked := f.chunked || Contains(Value(text), CHUNKED))
    case Location => f.(location := Short(Value(text)))
    case OtherName => f
  }

  function Short(value: seq<byte>): seq<byte> {
    if |value| < MAX_LOCATION then value else value[..MAX_LOCATION - 1]
  }

  /** A line without its end. */
  function LineStep(f: Facts, l: seq<byte>): Facts {
    if f.first then StatusLine(f, l)
    else if l == [] then f.(done := true)
    else HeaderLine(f, Text(l))
  }

  predicate Halted(s: State) {
    s.facts.done || s.facts.bad
  }

  function Chomp(l: seq<byte>): seq<byte> {
    if l != [] && l[|l| - 1] == CR then l[..|l| - 1] else l
  }

  function Step(s: State, c: byte): State {
    var t := s.(total := s.total + 1);
    if Halted(s) then s
    else if t.total > MAX_HEAD then t.(facts := s.facts.(bad := true))
    else if c == LF then t.(line := [], facts := LineStep(s.facts, Chomp(s.line)))
    else if |s.line| + 1 < LINE then t.(line := s.line + [c])
    else t
  }

  function After(s: State, p: seq<byte>): State
    decreases p
  {
    if p == [] then s else After(Step(s, p[0]), p[1..])
  }

  /** How many bytes of p are the head's. */
  function Used(s: State, p: seq<byte>): (n: nat)
    ensures n <= |p|
    decreases p
  {
    if p == [] || Halted(s) then 0 else 1 + Used(Step(s, p[0]), p[1..])
  }

  lemma {:induction false} HaltedStays(s: State, p: seq<byte>)
    requires Halted(s)
    ensures After(s, p) == s
    decreases p
  {
    if p != [] { HaltedStays(s, p[1..]); }
  }

  /** However the head is cut up, the same is read and the body starts at the same byte. */
  lemma {:induction false} SplitAnywhere(s: State, a: seq<byte>, b: seq<byte>)
    ensures After(s, a + b) == After(After(s, a), b)
    ensures Used(s, a + b) == Used(s, a) + Used(After(s, a), b)
    ensures !Halted(After(s, a)) ==> Used(s, a) == |a|
    decreases a
  {
    if a == [] {
      assert a + b == b;
    } else {
      assert (a + b)[1..] == a[1..] + b;
      SplitAnywhere(Step(s, a[0]), a[1..], b);
      if Halted(s) {
        HaltedStays(s, a);
        HaltedStays(s, a + b);
        HaltedStays(s, b);
      }
    }
  }

  method StartsWith(s: seq<byte>, prefix: seq<byte>) returns (r: bool)
    ensures r == Starts(s, prefix)
  {
    var i := 0;
    while i < |prefix|
      invariant i <= |prefix| && i <= |s|
      invariant forall j :: 0 <= j < i ==> Lower(s[j]) == Lower(prefix[j])
    {
      if i == |s| || Lower(s[i]) != Lower(prefix[i]) { return false; }
      i := i + 1;
    }
    return true;
  }

  method AnywhereIn(s: seq<byte>, word: seq<byte>) returns (r: bool)
    ensures r == Contains(s, word)
  {
    r := false;
    var k := 0;
    while k < |s|
      invariant k <= |s|
      invariant r == exists j :: 0 <= j < k && Starts(s[j..], word)
    {
      var here := StartsWith(s[k..], word);
      r := r || here;
      k := k + 1;
    }
  }

  method ReadName(text: seq<byte>) returns (name: Name)
    ensures name == NameOf(text)
  {
    hide Starts;
    if COLON !in text { return OtherName; }
    var named := StartsWith(text, CONTENT_LENGTH);
    if named { return ContentLength; }
    named := StartsWith(text, TRANSFER_ENCODING);
    if named { return TransferEncoding; }
    named := StartsWith(text, LOCATION);
    name := if named then Location else OtherName;
  }

  class Head {
    const line: array<byte>
    var len: nat
    var total: nat
    var first: bool
    var done: bool
    var bad: bool
    var status: int
    var length: int
    var chunked: bool
    var location: seq<byte>

    ghost predicate Valid()
      reads this
    {
      line.Length == LINE && len < LINE
    }

    function Told(): Facts
      reads this
    {
      Facts(first, done, bad, status, length, chunked, location)
    }

    function Now(): State
      requires Valid()
      reads this, line
    {
      State(line[..len], total, Told())
    }

    constructor ()
      ensures Valid() && Now() == START && fresh(line)
    {
      line := new byte[LINE];
      len, total, first, done, bad := 0, 0, true, false, false;
      status, length, chunked, location := 0, -1, false, [];
    }

    method ReadStatus(l: seq<byte>)
      modifies this`first, this`status, this`bad
      ensures Told() == StatusLine(old(Told()), l)
    {
      first := false;
      var http := StartsWith(Text(l), HTTP1);
      if !http || |l| < 12 || l[8] != SPACE {
        bad := true;
        return;
      }
      var n := ParseInt(Text(l[9..]));
      status := if n.Number? then n.n else 0;
      if status < 100 || status > 599 { bad := true; }
    }

    method ReadHeader(text: seq<byte>)
      modifies this`length, this`chunked, this`location
      ensures Told() == HeaderLine(old(Told()), text)
    {
      var name := ReadName(text);
      if name.OtherName? { return; }
      var v := Value(text);
      var found := false;
      if name.TransferEncoding? { found := AnywhereIn(v, CHUNKED); }
      hide NameOf, Contains, LengthOf, Short, Value, CHUNKED;
      length := if name.ContentLength? then LengthOf(v) else length;
      chunked := chunked || found;
      location := if name.Location? then Short(v) else location;
    }

    /** The line in the buffer is complete. */
    method Line()
      requires Valid()
      modifies this`first, this`done, this`bad, this`status, this`length, this`chunked, this`location
      ensures Told() == LineStep(old(Told()), line[..len])
    {
      hide StatusLine, HeaderLine;
      var l := line[..len];
      if first {
        ReadStatus(l);
      } else if len == 0 {
        done := true;
      } else {
        ReadHeader(Text(l));
      }
    }

    method Take(c: byte)
      requires Valid() && !Halted(Now())
      modifies this, line
      ensures Valid() && Now() == Step(old(Now()), c)
    {
      hide LineStep;
      total := total + 1;
      if total > MAX_HEAD {
        bad := true;
      } else if c == LF {
        if len > 0 && line[len - 1] == CR { len := len - 1; }
        assert line[..len] == Chomp(old(Now()).line);
        Line();
        len := 0;
      } else if len + 1 < LINE {
        line[len] := c;
        len := len + 1;
      }
    }

    /** Bytes up to the end of the head; the rest is body. */
    method Feed(p: array<byte>, n: nat) returns (i: nat)
      requires Valid() && n <= p.Length && p != line
      modifies this, line
      ensures Valid() && Now() == After(old(Now()), p[..n]) && i == Used(old(Now()), p[..n])
    {
      ghost var was := Now();
      i := 0;
      hide Step;
      while i < n && !done && !bad
        invariant i <= n && Valid()
        invariant After(Now(), p[i..n]) == After(was, p[..n])
        invariant i + Used(Now(), p[i..n]) == Used(was, p[..n])
      {
        assert p[i..n][1..] == p[i + 1..n];
        Take(p[i]);
        i := i + 1;
      }
      if done || bad { HaltedStays(Now(), p[i..n]); }
    }
  }

  /** What the line buffer keeps of a line. */
  function Cut(l: seq<byte>): (c: seq<byte>)
    ensures |c| < LINE && c <= l
  {
    if |l| < LINE then l else l[..LINE - 1]
  }

  predicate OneLine(l: seq<byte>) {
    CR !in l && LF !in l
  }

  predicate FieldsOk(ls: seq<seq<byte>>) {
    ls == [] || (OneLine(ls[0]) && ls[0] != [] && FieldsOk(ls[1..]))
  }

  function Lines(ls: seq<seq<byte>>): seq<byte> {
    if ls == [] then [] else (ls[0] + CRLF) + Lines(ls[1..])
  }

  function Fields(f: Facts, ls: seq<seq<byte>>): Facts
    decreases ls
  {
    if ls == [] then f else Fields(HeaderLine(f, Text(Cut(ls[0]))), ls[1..])
  }

  /** A response's head: status line, fields, the blank line. */
  function EncodeHead(status: seq<byte>, fields: seq<seq<byte>>): seq<byte> {
    (status + CRLF) + (Lines(fields) + CRLF)
  }

  lemma {:induction false} BytesRead(s: State, l: seq<byte>)
    requires !Halted(s) && OneLine(l) && |s.line| < LINE && s.total <= MAX_HEAD
    ensures if s.total + |l| <= MAX_HEAD then After(s, l) == s.(line := Cut(s.line + l), total := s.total + |l|)
            else After(s, l).facts == s.facts.(bad := true)
    decreases l
  {
    if l == [] {
      assert s.line + l == s.line;
    } else {
      var t := Step(s, l[0]);
      if Halted(t) {
        HaltedStays(t, l[1..]);
      } else {
        BytesRead(t, l[1..]);
        assert s.line + l == s.line + [l[0]] + l[1..];
      }
    }
  }

  lemma CrLfRead(s: State)
    requires !Halted(s) && |s.line| < LINE && s.total <= MAX_HEAD && CR !in s.line
    ensures if s.total + 2 <= MAX_HEAD then After(s, CRLF) == State([], s.total + 2, LineStep(s.facts, s.line))
            else After(s, CRLF).facts == s.facts.(bad := true)
  {
    hide LineStep;
    var t := Step(s, CR);
    assert CRLF[1..] == [LF];
    assert After(t, [LF]) == Step(t, LF);
    assert Chomp(t.line) == s.line;
  }

  lemma LineRead(s: State, l: seq<byte>)
    requires !Halted(s) && s.line == [] && s.total <= MAX_HEAD && OneLine(l)
    ensures if s.total + |l| + 2 <= MAX_HEAD
            then After(s, l + CRLF) == State([], s.total + |l| + 2, LineStep(s.facts, Cut(l)))
            else After(s, l + CRLF).facts == s.facts.(bad := true)
  {
    hide LineStep, Step, CRLF;
    SplitAnywhere(s, l, CRLF);
    BytesRead(s, l);
    assert s.line + l == l;
    var t := After(s, l);
    if Halted(t) {
      HaltedStays(t, CRLF);
    } else {
      CrLfRead(t);
    }
  }

  /** The parser within the fields of a head, at the start of a line. */
  predicate InFields(s: State) {
    !Halted(s) && s.line == [] && s.total <= MAX_HEAD && !s.facts.first
  }

  /** The state past a field line that fits. */
  function PastField(s: State, l: seq<byte>): State {
    State([], s.total + |l| + 2, HeaderLine(s.facts, Text(Cut(l))))
  }

  lemma LineStepIsHeader(f: Facts, l: seq<byte>)
    requires !f.first && l != []
    ensures LineStep(f, Cut(l)) == HeaderLine(f, Text(Cut(l)))
  {
    hide HeaderLine, Text;
  }

  lemma PastFieldIsIn(s: State, l: seq<byte>)
    requires InFields(s) && PastField(s, l).total <= MAX_HEAD
    ensures InFields(PastField(s, l))
  {
    hide Value, Short, LengthOf, NameOf, Text, Cut;
  }

  lemma InFieldsIs(s: State)
    requires InFields(s)
    ensures !Halted(s) && s.line == [] && s.total <= MAX_HEAD && !s.facts.first && !s.facts.done
  {
  }

  lemma FieldRead(s: State, l: seq<byte>, rest: seq<byte>)
    requires InFields(s) && OneLine(l) && l != []
    ensures var t := PastField(s, l);
      if t.total <= MAX_HEAD then InFields(t) && After(s, (l + CRLF) + rest) == After(t, rest)
      else After(s, (l + CRLF) + rest).facts == s.facts.(bad := true) && !s.facts.done
  {
    hide *;
    InFieldsIs(s);
    LineRead(s, l);
    LineStepIsHeader(s.facts, l);
    SplitAnywhere(s, l + CRLF, rest);
    PastFieldIs(s, l);
    if s.total + |l| + 2 <= MAX_HEAD {
      PastFieldIsIn(s, l);
    } else {
      BadIsHalted(After(s, l + CRLF));
      HaltedStays(After(s, l + CRLF), rest);
    }
  }

  lemma PastFieldIs(s: State, l: seq<byte>)
    ensures PastField(s, l) == State([], s.total + |l| + 2, HeaderLine(s.facts, Text(Cut(l))))
  {
  }

  lemma BadIsHalted(s: State)
    requires s.facts.bad
    ensures Halted(s)
  {
  }

  lemma Unrolled(s: State, ls: seq<seq<byte>>)
    requires FieldsOk(ls)
    ensures if ls == [] then Lines(ls) == [] && After(s, []) == s && Fields(s.facts, ls) == s.facts
            else
              && OneLine(ls[0]) && ls[0] != [] && FieldsOk(ls[1..])
              && Lines(ls) == (ls[0] + CRLF) + Lines(ls[1..]) && |Lines(ls)| == |ls[0]| + 2 + |Lines(ls[1..])|
              && Fields(s.facts, ls) == Fields(PastField(s, ls[0]).facts, ls[1..])
              && PastField(s, ls[0]).total == s.total + |ls[0]| + 2
  {
  }

  /** Header lines: what they tell, unless the head grows too long. */
  lemma {:induction false} LinesRead(s: State, ls: seq<seq<byte>>)
    requires InFields(s) && FieldsOk(ls)
    ensures var t := State([], s.total + |Lines(ls)|, Fields(s.facts, ls));
      if t.total <= MAX_HEAD then InFields(t) && After(s, Lines(ls)) == t
      else After(s, Lines(ls)).facts.bad && !After(s, Lines(ls)).facts.done
    decreases ls
  {
    assert ls == [] ==> s.line == [] && s.total <= MAX_HEAD;
    hide *;
    Unrolled(s, ls);
    if ls == [] {
      assert s == State([], s.total, s.facts);
    } else {
      FieldRead(s, ls[0], Lines(ls[1..]));
      var t := PastField(s, ls[0]);
      if t.total <= MAX_HEAD { LinesRead(t, ls[1..]); }
    }
  }

  /** What a head says. */
  function Meaning(status: seq<byte>, fields: seq<seq<byte>>): Facts {
    Fields(StatusLine(START.facts, Cut(status)), fields)
  }

  predicate HeadOk(status: seq<byte>, fields: seq<seq<byte>>) {
    OneLine(status) && FieldsOk(fields) && !StatusLine(START.facts, Cut(status)).bad
  }

  /** Fields cannot make a head bad or done. */
  lemma MeaningIsGood(status: seq<byte>, fields: seq<seq<byte>>)
    requires HeadOk(status, fields)
    ensures var f := Meaning(status, fields);
      !f.bad && !f.done && f.status == StatusLine(START.facts, Cut(status)).status
  {
    var f := StatusLine(START.facts, Cut(status));
    assert !f.bad && !f.done;
    hide *;
    FieldsTell(f, fields);
    MeaningIs(status, fields);
  }

  lemma MeaningIs(status: seq<byte>, fields: seq<seq<byte>>)
    ensures Meaning(status, fields) == Fields(StatusLine(START.facts, Cut(status)), fields)
  {
  }

  /** Up to the blank line. */
  lemma UpToTheBlankLine(status: seq<byte>, fields: seq<seq<byte>>)
    requires HeadOk(status, fields)
    ensures var begun := (status + CRLF) + Lines(fields);
      var s := After(START, begun);
      if |begun| <= MAX_HEAD then s == State([], |begun|, Meaning(status, fields)) && InFields(s)
      else s.facts.bad
  {
    var line, facts := status + CRLF, StatusLine(START.facts, Cut(status));
    LineRead(START, status);
    assert !facts.done && !facts.first;
    SplitAnywhere(START, line, Lines(fields));
    hide After, Step, Fields, StatusLine, Cut;
    if |line| <= MAX_HEAD {
      LinesRead(State([], |line|, facts), fields);
    } else {
      HaltedStays(After(START, line), Lines(fields));
    }
  }

  lemma BlankLineRead(s: State, body: seq<byte>)
    requires InFields(s)
    ensures var t := After(s, CRLF + body);
      if s.total + 2 <= MAX_HEAD
      then t == State([], s.total + 2, s.facts.(done := true)) && Used(s, CRLF + body) == 2
      else t.facts.bad
  {
    CrLfRead(s);
    SplitAnywhere(s, CRLF, body);
    HaltedStays(After(s, CRLF), body);
    assert CRLF[1..] == [LF] && (CRLF + body)[1..] == [LF] + body && ([LF] + body)[1..] == body;
    if s.total + 2 <= MAX_HEAD {
      assert After(s, CRLF) == Step(Step(s, CR), LF) by { assert After(Step(s, CR), [LF]) == Step(Step(s, CR), LF); }
      assert !Halted(Step(s, CR));
      assert Used(s, CRLF + body) == 1 + Used(Step(s, CR), [LF] + body);
      assert Used(Step(s, CR), [LF] + body) == 1 + Used(After(s, CRLF), body);
    }
  }

  /** A head of up to 8192 bytes is read in full and no byte further; a longer one is bad. */
  lemma HeadRead(status: seq<byte>, fields: seq<seq<byte>>, body: seq<byte>)
    requires HeadOk(status, fields)
    ensures var h := EncodeHead(status, fields);
      if |h| <= MAX_HEAD
      then After(START, h + body) == State([], |h|, Meaning(status, fields).(done := true)) &&
           Used(START, h + body) == |h|
      else After(START, h + body).facts.bad
  {
    var begun, h := (status + CRLF) + Lines(fields), EncodeHead(status, fields);
    UpToTheBlankLine(status, fields);
    var s := After(START, begun);
    assert h + body == begun + (CRLF + body);
    SplitAnywhere(START, begun, CRLF + body);
    if |begun| <= MAX_HEAD {
      BlankLineRead(s, body);
    } else {
      HaltedStays(s, CRLF + body);
    }
  }

  function NameIn(l: seq<byte>): Name {
    NameOf(Text(Cut(l)))
  }

  function ValueIn(l: seq<byte>): seq<byte> {
    Value(Text(Cut(l)))
  }

  /** The place of the last field of that name, -1: none. */
  function LastNamed(ls: seq<seq<byte>>, name: Name): (k: int)
    ensures -1 <= k < |ls|
    decreases |ls|
  {
    if ls == [] then -1
    else if NameIn(ls[|ls| - 1]) == name then |ls| - 1
    else LastNamed(ls[..|ls| - 1], name)
  }

  lemma {:induction false} LastNamedIs(ls: seq<seq<byte>>, name: Name)
    ensures var k := LastNamed(ls, name);
      (k >= 0 ==> NameIn(ls[k]) == name) && forall j :: k < j < |ls| ==> NameIn(ls[j]) != name
    decreases |ls|
  {
    hide NameIn;
    if ls != [] && NameIn(ls[|ls| - 1]) != name { LastNamedIs(ls[..|ls| - 1], name); }
  }

  predicate SaysChunked(l: seq<byte>) {
    NameIn(l) == TransferEncoding && Contains(ValueIn(l), CHUNKED)
  }

  lemma LastFieldTells(f: Facts, l: seq<byte>)
    ensures var g, name := HeaderLine(f, Text(Cut(l))), NameIn(l);
      && g == f.(length := g.length, chunked := g.chunked, location := g.location)
      && g.length == (if name == ContentLength then LengthOf(ValueIn(l)) else f.length)
      && g.location == (if name == Location then Short(ValueIn(l)) else f.location)
      && g.chunked == (f.chunked || SaysChunked(l))
  {
    hide NameOf, LengthOf, Contains, Short, Value, Text, Cut, CHUNKED;
  }

  lemma {:induction false} OneMoreField(f: Facts, ls: seq<seq<byte>>, l: seq<byte>)
    ensures Fields(f, ls + [l]) == HeaderLine(Fields(f, ls), Text(Cut(l)))
    decreases ls
  {
    hide HeaderLine, Text, Cut;
    if ls == [] {
      assert ls + [l] == [l];
      assert Fields(HeaderLine(f, Text(Cut(l))), []) == HeaderLine(f, Text(Cut(l)));
    } else {
      assert (ls + [l])[1..] == ls[1..] + [l];
      OneMoreField(HeaderLine(f, Text(Cut(ls[0]))), ls[1..], l);
    }
  }

  /** The last Content-Length and Location win, one "chunked" is enough, and nothing else counts. */
  lemma {:induction false} FieldsTell(f: Facts, ls: seq<seq<byte>>)
    ensures var g, k, u := Fields(f, ls), LastNamed(ls, ContentLength), LastNamed(ls, Location);
      && g == f.(length := g.length, chunked := g.chunked, location := g.location)
      && g.length == (if k >= 0 then LengthOf(ValueIn(ls[k])) else f.length)
      && g.location == (if u >= 0 then Short(ValueIn(ls[u])) else f.location)
      && (g.chunked <==> f.chunked || exists l :: l in ls && SaysChunked(l))
    decreases |ls|
  {
    hide NameIn, SaysChunked, HeaderLine, LengthOf, Short, ValueIn, Cut, Text;
    if ls != [] {
      var most, l := ls[..|ls| - 1], ls[|ls| - 1];
      assert most + [l] == ls;
      OneMoreField(f, most, l);
      LastFieldTells(Fields(f, most), l);
      FieldsTell(f, most);
      assert l in ls && forall m :: m in ls <==> m in most || m == l;
    }
  }

  // ---- the words and the limits

  /** Text that starts with a word in small letters, in any case. */
  lemma StartsIs(text: seq<byte>, prefix: seq<byte>, word: string)
    requires Spells(prefix, word) && forall i :: 0 <= i < |word| ==> !('A' <= word[i] <= 'Z')
    ensures Starts(text, prefix) <==> |text| >= |word| && SpellsAnyCase(text[..|word|], word)
  {
    if |text| >= |word| {
      forall i | 0 <= i < |word|
        ensures Lower(text[i]) == Lower(prefix[i]) <==>
          text[i] as int == word[i] as int || ('a' <= word[i] <= 'z' && text[i] as int + 32 == word[i] as int)
      {
        assert prefix[i] as int == word[i] as int;
      }
      assert forall i :: 0 <= i < |word| ==> text[..|word|][i] == text[i];
    }
  }

  predicate Begins(text: seq<byte>, word: string) {
    |text| >= |word| && SpellsAnyCase(text[..|word|], word)
  }

  /** Three field names count, in any case, and no other. */
  lemma NamesRead(text: seq<byte>)
    ensures NameOf(text) == ContentLength <==> Begins(text, "content-length:")
    ensures NameOf(text) == TransferEncoding <==> Begins(text, "transfer-encoding:")
    ensures NameOf(text) == Location <==> Begins(text, "location:")
  {
    assert Spells(CONTENT_LENGTH, "content-length:");
    assert Spells(TRANSFER_ENCODING, "transfer-encoding:");
    assert Spells(LOCATION, "location:");
    StartsIs(text, CONTENT_LENGTH, "content-length:");
    StartsIs(text, TRANSFER_ENCODING, "transfer-encoding:");
    StartsIs(text, LOCATION, "location:");
    OneName(text);
    hide Starts, CONTENT_LENGTH, TRANSFER_ENCODING, LOCATION, SpellsAnyCase;
  }

  lemma OneName(text: seq<byte>)
    ensures Begins(text, "content-length:") ==>
      COLON in text && !Begins(text, "transfer-encoding:") && !Begins(text, "location:")
    ensures Begins(text, "transfer-encoding:") ==> COLON in text && !Begins(text, "location:")
    ensures Begins(text, "location:") ==> COLON in text
  {
    if Begins(text, "content-length:") { assert text[..15][14] == text[14] && text[..15][0] == text[0]; }
    if Begins(text, "transfer-encoding:") { assert text[..18][17] == text[17] && text[..18][0] == text[0]; }
    if Begins(text, "location:") { assert text[..9][8] == text[8] && text[..9][0] == text[0]; }
  }

  /** The version is that of HTTP/1, and an encoding is chunked if the word stands anywhere in it. */
  lemma WordsRead(text: seq<byte>)
    ensures Starts(text, HTTP1) <==> Begins(text, "http/1.")
    ensures Contains(text, CHUNKED) <==> exists k :: 0 <= k < |text| && Begins(text[k..], "chunked")
  {
    assert Spells(CHUNKED, "chunked");
    forall k | 0 <= k < |text| ensures Starts(text[k..], CHUNKED) <==> Begins(text[k..], "chunked") {
      StartsIs(text[k..], CHUNKED, "chunked");
    }
    HttpRead(text);
    hide Starts, CHUNKED, HTTP1, SpellsAnyCase, Spells;
  }

  lemma HttpRead(text: seq<byte>)
    ensures Starts(text, HTTP1) <==> Begins(text, "http/1.")
  {
    var word := "http/1.";
    if |text| >= 7 {
      forall i | 0 <= i < 7
        ensures Lower(text[i]) == Lower(HTTP1[i]) <==>
          text[i] as int == word[i] as int || ('a' <= word[i] <= 'z' && text[i] as int + 32 == word[i] as int)
      {
        assert Lower(HTTP1[i]) as int == word[i] as int;
      }
      assert forall i :: 0 <= i < 7 ==> text[..7][i] == text[i];
    }
  }

  /** A location of up to 255 bytes is kept, a line of up to 299; of longer ones as much. */
  lemma LimitsAre(v: seq<byte>)
    ensures Short(v) == (if |v| <= 255 then v else v[..255]) && Cut(v) == if |v| <= 299 then v else v[..299]
  {
  }

  /** A length below zero, or none, is no length; one past 2^63 - 1 is that. */
  lemma LengthsAre(v: seq<byte>)
    ensures LengthOf(v) == match ParseInt(v)
                           case NoNumber => -1
                           case Number(n) =>
                             if n < 0 then -1 else if n > 9223372036854775807 then 9223372036854775807 else n
  {
  }

  /** Up to 8192 bytes of head are read. */
  lemma LongHeads(status: seq<byte>, fields: seq<seq<byte>>, body: seq<byte>)
    requires HeadOk(status, fields)
    ensures var f := After(START, EncodeHead(status, fields) + body).facts;
      if |EncodeHead(status, fields)| <= 8192 then f.done && !f.bad else f.bad
  {
    HeadRead(status, fields, body);
    MeaningIsGood(status, fields);
    hide Meaning, EncodeHead;
  }

  predicate Digits(d: seq<byte>) {
    d != [] && forall i :: 0 <= i < |d| ==> IsDigit(d[i])
  }

  /** What decimal digits spell. */
  function Spelled(d: seq<byte>): int {
    if d == [] then 0 else 10 * Spelled(d[..|d| - 1]) + (d[|d| - 1] as int - 48)
  }

  lemma {:induction false} OneMoreDigit(n: nat, d: seq<byte>, c: byte)
    requires Digits(d + [c])
    ensures Decimal(n, d + [c]) == 10 * Decimal(n, d) + (c as int - 48)
    decreases d
  {
    if d == [] {
      assert IsDigit((d + [c])[0]) && (d + [c])[1..] == [];
    } else {
      assert IsDigit((d + [c])[0]) && (d + [c])[1..] == d[1..] + [c];
      assert forall i :: 0 <= i < |d[1..] + [c]| ==> (d[1..] + [c])[i] == (d + [c])[i + 1];
      OneMoreDigit(10 * n + (d[0] - 48), d[1..], c);
    }
  }

  lemma {:induction false} DecimalSpells(d: seq<byte>)
    requires d == [] || Digits(d)
    ensures Decimal(0, d) == Spelled(d)
    decreases d
  {
    if d != [] {
      var most, c := d[..|d| - 1], d[|d| - 1];
      assert most + [c] == d;
      OneMoreDigit(0, most, c);
      DecimalSpells(most);
    }
  }

  lemma {:induction false} DecimalStops(n: nat, d: seq<byte>, rest: seq<byte>)
    requires forall i :: 0 <= i < |d| ==> IsDigit(d[i])
    requires rest == [] || !IsDigit(rest[0])
    ensures Decimal(n, d + rest) == Decimal(n, d)
    decreases d
  {
    if d == [] {
      assert d + rest == rest;
    } else {
      assert (d + rest)[1..] == d[1..] + rest;
      DecimalStops(10 * n + (d[0] - 48), d[1..], rest);
    }
  }

  /** Digits, and something else after them, read as the number they spell. */
  lemma DigitsParse(d: seq<byte>, rest: seq<byte>)
    requires Digits(d) && (rest == [] || !IsDigit(rest[0]))
    ensures ParseInt(d + rest) == Number(Spelled(d))
  {
    assert IsDigit(d[0]);
    DecimalStops(0, d, rest);
    DecimalSpells(d);
  }

  lemma {:induction false} SpaceSkipped(w: seq<byte>, rest: seq<byte>)
    requires forall i :: 0 <= i < |w| ==> w[i] == 32 || 9 <= w[i] <= 13
    requires rest != [] && rest[0] > 32
    ensures SkipSpace(w + rest) == rest
  {
    if w == [] {
      assert w + rest == rest;
    } else {
      assert (w + rest)[1..] == w[1..] + rest;
      SpaceSkipped(w[1..], rest);
    }
  }

  /** A number as strtoll reads it: white space, a sign or none, digits, and whatever follows them. */
  lemma NumberRead(w: seq<byte>, sign: seq<byte>, d: seq<byte>, rest: seq<byte>)
    requires forall i :: 0 <= i < |w| ==> w[i] == 32 || 9 <= w[i] <= 13
    requires sign == [] || Spells(sign, "+") || Spells(sign, "-")
    requires Digits(d) && (rest == [] || !IsDigit(rest[0]))
    ensures ParseInt(w + (sign + (d + rest))) == Number(if Spells(sign, "-") then -Spelled(d) else Spelled(d))
  {
    var t := sign + (d + rest);
    assert IsDigit(d[0]) && (d + rest)[0] == d[0];
    assert sign == [] || sign == [43] || sign == [45];
    assert t[0] == if sign == [] then d[0] else sign[0];
    assert sign == [] ==> t == d + rest;
    assert sign != [] ==> t[1..] == d + rest;
    SpaceSkipped(w, t);
    DecimalStops(0, d, rest);
    DecimalSpells(d);
    hide SkipSpace, Decimal, Spelled;
  }

  /** A line's text ends at its first NUL. */
  lemma TextEnds(a: seq<byte>, b: seq<byte>)
    requires 0 !in a
    ensures Text(a + ([0] + b)) == a
  {
    TextGoesOn(a, [0] + b);
  }

  lemma {:induction false} TextGoesOn(a: seq<byte>, b: seq<byte>)
    requires 0 !in a
    ensures Text(a + b) == a + Text(b)
  {
    if a == [] {
      assert a + b == b;
    } else {
      assert (a + b)[1..] == a[1..] + b;
      TextGoesOn(a[1..], b);
    }
  }

  lemma StartsAnyway(a: seq<byte>, b: seq<byte>, prefix: seq<byte>)
    requires Starts(a, prefix)
    ensures Starts(a + b, prefix)
  {
  }

  lemma {:induction false} ColonPassed(a: seq<byte>, rest: seq<byte>)
    requires COLON !in a
    ensures PastColon(a + ([COLON] + rest)) == rest
  {
    if a == [] {
      assert a + ([COLON] + rest) == [COLON] + rest;
    } else {
      assert (a + ([COLON] + rest))[1..] == a[1..] + ([COLON] + rest);
      ColonPassed(a[1..], rest);
    }
  }

  lemma {:induction false} BlanksSkipped(a: seq<byte>, rest: seq<byte>)
    requires forall i :: 0 <= i < |a| ==> IsBlank(a[i])
    requires rest == [] || !IsBlank(rest[0])
    ensures SkipBlanks(a + rest) == rest
  {
    if a == [] {
      assert a + rest == rest;
    } else {
      assert (a + rest)[1..] == a[1..] + rest;
      BlanksSkipped(a[1..], rest);
    }
  }

  /** A header line's value, its blanks dropped. */
  lemma ValueRead(name: seq<byte>, blanks: seq<byte>, v: seq<byte>)
    requires COLON !in name && 0 !in name && 0 !in v && (v == [] || !IsBlank(v[0]))
    requires forall i :: 0 <= i < |blanks| ==> IsBlank(blanks[i])
    requires |name| + 1 + |blanks| + |v| < LINE
    ensures var l := name + ([COLON] + (blanks + v));
      Text(Cut(l)) == l && COLON in l && ValueIn(l) == v
  {
    var l := name + ([COLON] + (blanks + v));
    assert 0 !in l && l[|name|] == COLON;
    TextGoesOn(l, []);
    assert l + [] == l;
    hide *;
    ColonPassed(name, blanks + v);
    BlanksSkipped(blanks, v);
  }

  lemma NoColonEarly(name: seq<byte>)
    requires Starts(name + [COLON], CONTENT_LENGTH) && |name| + 1 == |CONTENT_LENGTH|
    ensures COLON !in name && 0 !in name
  {
    forall i | 0 <= i < |name| ensures name[i] != 0 && name[i] != COLON {
      assert Lower((name + [COLON])[i]) == Lower(CONTENT_LENGTH[i]);
    }
  }

  lemma Regrouped(a: seq<byte>, b: seq<byte>, c: seq<byte>)
    ensures (a + b) + c == a + (b + c)
  {
  }

  lemma LengthNamed(l: seq<byte>)
    requires COLON in l && Text(Cut(l)) == l && Starts(l, CONTENT_LENGTH)
    ensures NameIn(l) == ContentLength
    ensures var n := ParseInt(ValueIn(l)); n.Number? && 0 <= n.n <= MAX_INT64 ==> LengthOf(ValueIn(l)) == n.n
  {
    hide Starts, Text, Cut, ParseInt;
  }

  /** A Content-Length field, its name in any case, says the length it spells. */
  lemma LengthRead(name: seq<byte>, blanks: seq<byte>, d: seq<byte>, rest: seq<byte>)
    requires Starts(name + [COLON], CONTENT_LENGTH) && |name| + 1 == |CONTENT_LENGTH|
    requires Digits(d) && Spelled(d) <= MAX_INT64
    requires forall i :: 0 <= i < |blanks| ==> IsBlank(blanks[i])
    requires 0 !in rest && (rest == [] || !IsDigit(rest[0]))
    requires |name| + 1 + |blanks| + |d| + |rest| < LINE
    ensures var l := name + ([COLON] + (blanks + (d + rest)));
      NameIn(l) == ContentLength && LengthOf(ValueIn(l)) == Spelled(d)
  {
    var v := d + rest;
    DigitsFirst(d, rest);
    NoColonEarly(name);
    StartsAnyway(name + [COLON], blanks + v, CONTENT_LENGTH);
    DigitsParse(d, rest);
    DecimalSpells(d);
    assert |v| == |d| + |rest|;
    hide *;
    ValueRead(name, blanks, v);
    Regrouped(name, [COLON], blanks + v);
    LengthNamed(name + ([COLON] + (blanks + v)));
  }

  lemma DigitsFirst(d: seq<byte>, rest: seq<byte>)
    requires Digits(d) && 0 !in rest
    ensures d + rest != [] && 0 !in d + rest && !IsBlank((d + rest)[0])
  {
    assert IsDigit(d[0]) && forall i :: 0 <= i < |d| ==> IsDigit(d[i]) && d[i] != 0;
  }

  lemma StatusLineIs(version: seq<byte>, rest: seq<byte>)
    requires |version| == 8 && Starts(version + ([SPACE] + rest), HTTP1)
    requires Text(version + ([SPACE] + rest)) == version + ([SPACE] + rest) && Text(rest) == rest && |rest| >= 3
    ensures var f := StatusLine(START.facts, version + ([SPACE] + rest));
      && (ParseInt(rest).Number? ==> f.status == ParseInt(rest).n)
      && f.bad == !(100 <= f.status <= 599)
  {
    var l := version + ([SPACE] + rest);
    assert l[9..] == rest && l[8] == SPACE;
    hide Starts, HTTP1, Text, ParseInt;
  }

  /** A status line: the three digits after the version. */
  lemma StatusRead(version: seq<byte>, d: seq<byte>, reason: seq<byte>)
    requires |version| == 8 && 0 !in version && Starts(version, HTTP1) && Digits(d) && |d| == 3
    requires 0 !in reason && (reason == [] || !IsDigit(reason[0])) && |reason| < LINE - 12
    ensures var f := StatusLine(START.facts, Cut(version + ([SPACE] + (d + reason))));
      f.status == Spelled(d) && f.bad == !(100 <= Spelled(d) <= 599)
  {
    var rest := d + reason;
    var l := version + ([SPACE] + rest);
    DigitsFirst(d, reason);
    assert 0 !in l && Cut(l) == l;
    DigitsParse(d, reason);
    hide *;
    TextIsAll(l);
    TextIsAll(rest);
    StartsAnyway(version, [SPACE] + rest, HTTP1);
    StatusLineIs(version, rest);
  }

  lemma TextIsAll(l: seq<byte>)
    requires 0 !in l
    ensures Text(l) == l
  {
    TextGoesOn(l, []);
    assert l + [] == l;
  }
}
