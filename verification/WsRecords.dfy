/** What the roster's record of a client says: exactly what that client did last, as the events of a run tell. */
module WsRecords {
  import opened WsRoster

  /** When anything was heard of the client last, its connection included. */
  function LastRx(run: seq<Event>, id: nat): int {
    if run == [] then 0
    else
      var e := run[|run| - 1];
      if e.id == id && (e.Connect? || e.Receive?) then e.now else LastRx(run[..|run| - 1], id)
  }

  /** The same, pongs left out. */
  function LastApp(run: seq<Event>, id: nat): int {
    if run == [] then 0
    else
      var e := run[|run| - 1];
      if e.id == id && (e.Connect? || (e.Receive? && !e.pong)) then e.now else LastApp(run[..|run| - 1], id)
  }

  datatype View = NotSaid | IsShown | IsHidden(since: int)

  /** What the client said of its page since it connected; hidden since it first said so. */
  function Said(run: seq<Event>, id: nat): View {
    if run == [] then NotSaid
    else
      var e, before := run[|run| - 1], Said(run[..|run| - 1], id);
      if e.id != id then before
      else match e
        case Connect(_, _, _) => NotSaid
        case Visible(_, hidden, now) => if !hidden then IsShown else if before.IsHidden? then before else IsHidden(now)
        case _ => before
  }

  /** The client's last word on the channel since it connected is a subscription. */
  predicate Subscribes(run: seq<Event>, id: nat, ch: string) {
    if run == [] then false
    else
      var e := run[|run| - 1];
      if e.id == id && e.Connect? then false
      else if e.id == id && (e.Sub? || e.Unsub?) && e.ch == ch then e.Sub?
      else Subscribes(run[..|run| - 1], id, ch)
  }

  predicate True(c: Client, run: seq<Event>) {
    && c.lastRx == LastRx(run, c.id) && c.lastAppRx == LastApp(run, c.id)
    && (match Said(run, c.id)
        case NotSaid => c.hidden == -1
        case IsShown => c.hidden == 0
        case IsHidden(since) => c.hidden == 1 && c.hiddenSince == since)
    && forall ch :: ch in c.subs ==> Subscribes(run, c.id, ch)
  }

  predicate UniqueIds(r: seq<Client>) {
    forall i, j :: 0 <= i < j < |r| ==> r[i].id != r[j].id
  }

  /** The same clients, some of them closed. */
  predicate Marked(r: seq<Client>, q: seq<Client>) {
    |q| == |r| && forall i :: 0 <= i < |r| ==> q[i].(evicting := r[i].evicting) == r[i]
  }

  lemma EvictMarks(s: State, scope: Scope, keep: nat, now: int)
    ensures Marked(s.clients, Evict(s, scope, keep, now).state.clients)
  {
    hide Pick, IndexOf;
  }

  lemma {:induction false} CloseTabMarks(r: seq<Client>, connected: set<nat>, tab: nat)
    ensures Marked(r, CloseTab(r, connected, tab))
  {
    if r != [] { CloseTabMarks(r[..|r| - 1], connected, tab); }
  }

  lemma {:induction false} PutAdds(r: seq<Client>, c: Client)
    requires UniqueIds(r) && forall x :: x in r ==> x.id != c.id
    ensures UniqueIds(Put(r, c)) && forall x :: x in Put(r, c) ==> x == c || x in r
  {
    if r != [] && r[|r| - 1].id >= c.id {
      var most, last := r[..|r| - 1], r[|r| - 1];
      PutAdds(most, c);
      assert forall x :: x in Put(most, c) ==> x.id != last.id;
      assert Put(r, c) == Put(most, c) + [last];
    }
  }

  lemma {:induction false} RemoveTakes(r: seq<Client>, id: nat)
    requires UniqueIds(r)
    ensures UniqueIds(Remove(r, id)) && forall x :: x in Remove(r, id) ==> x in r && x.id != id
  {
    if r != [] { RemoveTakes(r[..|r| - 1], id); }
  }

  /** b is what the event leaves of a, but for its being closed. */
  predicate Goes(a: Client, b: Client, e: Event) {
    var own := e.id == a.id;
    && b.id == a.id
    && b.lastRx == (if own && e.Receive? then e.now else a.lastRx)
    && b.lastAppRx == (if own && e.Receive? && !e.pong then e.now else a.lastAppRx)
    && b.hidden == (if own && e.Visible? then if e.hidden then 1 else 0 else a.hidden)
    && (b.hidden == 1 ==> b.hiddenSince == if own && e.Visible? && a.hidden != 1 then e.now else a.hiddenSince)
    && (forall ch :: ch in b.subs ==> ch in a.subs || (own && e.Sub? && e.ch == ch))
    && (own && e.Unsub? ==> e.ch !in b.subs)
  }

  predicate ComesFrom(r: seq<Client>, b: Client, e: Event) {
    if e.Connect? && b.id == e.id then b.(evicting := false) == Newcomer(e)
    else exists i :: 0 <= i < |r| && Goes(r[i], b, e)
  }

  /** Who is closed keeps the rest of its record. */
  lemma MarkedComes(r: seq<Client>, t: seq<Client>, q: seq<Client>, e: Event)
    requires Marked(t, q) && UniqueIds(t) && forall b :: b in t ==> ComesFrom(r, b, e)
    ensures UniqueIds(q) && forall b :: b in q ==> ComesFrom(r, b, e)
  {
    forall j | 0 <= j < |q| ensures ComesFrom(r, q[j], e) {
      assert t[j] in t;
      if !(e.Connect? && t[j].id == e.id) {
        var i :| 0 <= i < |r| && Goes(r[i], t[j], e);
        assert Goes(r[i], q[j], e);
      }
    }
  }

  lemma LetInRecords(s: State, e: Event)
    requires UniqueIds(s.clients) && Enabled(s, e) && e.Connect?
    ensures UniqueIds(LetIn(s, e).clients) && forall b :: b in LetIn(s, e).clients ==> ComesFrom(s.clients, b, e)
  {
    var open := s.connected + {e.id};
    var rest := if e.tab != 0 then CloseTab(s.clients, open, e.tab) else s.clients;
    CloseTabMarks(s.clients, open, e.tab);
    assert Marked(s.clients, rest);
    hide CloseTab;
    PutAdds(rest, Newcomer(e));
    hide Put;
    forall b | b in LetIn(s, e).clients ensures ComesFrom(s.clients, b, e) {
      if b != Newcomer(e) {
        var i :| 0 <= i < |rest| && rest[i] == b;
        assert Goes(s.clients[i], b, e);
      }
    }
  }

  lemma ConnectRecords(s: State, e: Event)
    requires UniqueIds(s.clients) && Enabled(s, e) && e.Connect?
    ensures UniqueIds(Step(s, e).clients) && forall b :: b in Step(s, e).clients ==> ComesFrom(s.clients, b, e)
  {
    hide *;
    var t := LetIn(s, e);
    LetInRecords(s, e);
    ConnectIs(s, e);
    EvictMarks(t, All, e.id, e.now);
    if Step(s, e) != t { MarkedComes(s.clients, t.clients, Step(s, e).clients, e); }
  }

  lemma SubRecords(s: State, e: Event)
    requires UniqueIds(s.clients) && e.Sub?
    ensures UniqueIds(Step(s, e).clients) && forall b :: b in Step(s, e).clients ==> ComesFrom(s.clients, b, e)
  {
    var k := IndexOf(s.clients, e.id);
    var r := Step(s, e).clients;
    if k >= 0 {
      var c := s.clients[k].(subs := s.clients[k].subs + {e.ch});
      var t := Changed(s, k, c);
      EvictMarks(t, Channel(e.ch), e.id, e.now);
      hide Evict, LiveCount;
      assert forall i :: 0 <= i < |r| ==> Goes(s.clients[i], r[i], e);
    } else {
      assert forall i :: 0 <= i < |r| ==> Goes(s.clients[i], r[i], e);
    }
    hide Step;
  }

  lemma OwnRecords(s: State, e: Event)
    requires UniqueIds(s.clients) && (e.Unsub? || e.Visible? || e.Receive?)
    ensures UniqueIds(Step(s, e).clients) && forall b :: b in Step(s, e).clients ==> ComesFrom(s.clients, b, e)
  {
    var r := Step(s, e).clients;
    assert forall i :: 0 <= i < |r| ==> Goes(s.clients[i], r[i], e);
    hide Step;
  }

  lemma GoneRecords(s: State, e: Event)
    requires UniqueIds(s.clients) && (e.Close? || e.Forget?)
    ensures UniqueIds(Step(s, e).clients) && forall b :: b in Step(s, e).clients ==> ComesFrom(s.clients, b, e)
  {
    RemoveTakes(s.clients, e.id);
    forall b | b in Step(s, e).clients ensures ComesFrom(s.clients, b, e) {
      var i :| 0 <= i < |s.clients| && s.clients[i] == b;
      assert Goes(s.clients[i], b, e);
    }
  }

  lemma StepRecords(s: State, e: Event)
    requires UniqueIds(s.clients) && Enabled(s, e)
    ensures UniqueIds(Step(s, e).clients) && forall b :: b in Step(s, e).clients ==> ComesFrom(s.clients, b, e)
  {
    hide UniqueIds, ComesFrom, Step, Enabled;
    match e
    case Connect(_, _, _) => ConnectRecords(s, e);
    case Sub(_, _, _) => SubRecords(s, e);
    case Close(_) => GoneRecords(s, e);
    case Forget(_) => GoneRecords(s, e);
    case _ => OwnRecords(s, e);
  }

  lemma RecordGoesOn(r: seq<Client>, run: seq<Event>, e: Event, b: Client)
    requires forall c :: c in r ==> True(c, run)
    requires ComesFrom(r, b, e)
    ensures True(b, run + [e])
  {
    assert (run + [e])[..|run|] == run;
    if !(e.Connect? && b.id == e.id) {
      var i :| 0 <= i < |r| && Goes(r[i], b, e);
      assert True(r[i], run);
    }
  }

  /** The run's end: its last event on top of what the rest leaves. */
  lemma {:induction false} LastStep(s: State, run: seq<Event>, e: Event)
    requires CanRun(s, run + [e])
    ensures CanRun(s, run) && Enabled(After(s, run), e) && After(s, run + [e]) == Step(After(s, run), e)
    decreases run
  {
    hide Step, Enabled;
    if run == [] {
      assert run + [e] == [e] && [e][1..] == [];
      assert After(Step(s, e), []) == Step(s, e);
    } else {
      assert (run + [e])[1..] == run[1..] + [e];
      LastStep(Step(s, run[0]), run[1..], e);
    }
  }

  /** Over every run from an empty roster each client's record is true: when it was heard of, what it said of its page
      and since when, and no channel that it did not ask for last. */
  lemma {:induction false} RecordsAreTrue(s: State, run: seq<Event>)
    requires s.clients == [] && CanRun(s, run)
    ensures UniqueIds(After(s, run).clients) && forall c :: c in After(s, run).clients ==> True(c, run)
    decreases run
  {
    hide Step, Enabled, True, ComesFrom;
    if run != [] {
      var most, e := run[..|run| - 1], run[|run| - 1];
      assert run == most + [e];
      LastStep(s, most, e);
      RecordsAreTrue(s, most);
      var t := After(s, most);
      StepRecords(t, e);
      forall b | b in Step(t, e).clients ensures True(b, run) {
        RecordGoesOn(t.clients, most, e, b);
      }
    }
  }

  /** The classes in seconds: no pong for longer than the ping's period and five seconds; else by what the page said. */
  lemma ClassIs(c: Client, pingSec: nat, now: int)
    requires 0 <= now - c.lastRx < 0x1_0000_0000
    ensures ClassOf(c, pingSec, now).Dead? <==> pingSec > 0 && now - c.lastRx > 1000 * (pingSec + 5)
    ensures !ClassOf(c, pingSec, now).Dead? ==>
      (ClassOf(c, pingSec, now).Hidden? <==> c.hidden > 0) && (ClassOf(c, pingSec, now).Unknown? <==> c.hidden < 0)
  {
  }

  /** A subscription within the cap stays; one over it does, too, unless it is itself the one to go. */
  lemma SubStays(s: State, e: Event)
    requires e.Sub? && IndexOf(s.clients, e.id) >= 0
    ensures var k := IndexOf(s.clients, e.id);
      var with := s.(clients := s.clients[k := s.clients[k].(subs := s.clients[k].subs + {e.ch})]);
      var c := Step(s, e).clients[k];
      (|| LiveCount(with.clients, with.connected, Channel(e.ch)) <= s.maxPerChannel
       || Evict(with, Channel(e.ch), e.id, e.now).victim != e.id)
      ==> c.id == e.id && e.ch in c.subs
  {
    var k := IndexOf(s.clients, e.id);
    var with := s.(clients := s.clients[k := s.clients[k].(subs := s.clients[k].subs + {e.ch})]);
    EvictMarks(with, Channel(e.ch), e.id, e.now);
    hide Evict, LiveCount;
  }

  /** A client that is gone is in no record and counts nowhere. */
  lemma GoneIsGone(s: State, id: nat)
    ensures forall c :: c in Step(s, Forget(id)).clients ==> c.id != id
    ensures forall c: Client, scope :: c.id == id ==> !Counts(c, Step(s, Close(id)).connected, scope)
  {
    RemovedIsGone(s.clients, id);
  }

  lemma {:induction false} RemovedIsGone(r: seq<Client>, id: nat)
    ensures forall c :: c in Remove(r, id) ==> c.id != id
  {
    if r != [] { RemovedIsGone(r[..|r| - 1], id); }
  }
}
