/** The WebSocket clients: the caps on clients and on a channel's subscribers, and who is closed for a newcomer. */
module WsRoster {
  const U32 := 0x1_0000_0000

  /** hidden: 1 the page says hidden, 0 shown, -1 never said; tab 0: unknown; evicting: closed by a cap. */
  datatype Client = Client(id: nat, tab: nat, lastRx: int, lastAppRx: int, hidden: int, hiddenSince: int,
                           subs: set<string>, evicting: bool)

  /** A channel, or all clients. */
  datatype Scope = Channel(name: string) | All

  /** The roster in id order; connected: the library's clients that are open. */
  datatype State = State(clients: seq<Client>, connected: set<nat>, maxClients: nat, maxPerChannel: nat, pingSec: nat)

  function Elapsed(now: int, since: int): nat {
    (now - since) % U32
  }

  predicate Live(c: Client, connected: set<nat>) {
    !c.evicting && c.id in connected
  }

  predicate Counts(c: Client, connected: set<nat>, scope: Scope) {
    Live(c, connected) && (scope.All? || scope.name in c.subs)
  }

  function LiveCount(r: seq<Client>, connected: set<nat>, scope: Scope): (n: nat)
    ensures n <= |r|
  {
    if r == [] then 0
    else LiveCount(r[..|r| - 1], connected, scope) + if Counts(r[|r| - 1], connected, scope) then 1 else 0
  }

  /** Why a client may go: silent past a ping and a margin, hidden, or it never said. */
  datatype Class = Dead | Hidden | Unknown | Shown

  function DeadMs(pingSec: nat): nat {
    if pingSec == 0 then 0 else pingSec * 1000 + 5000
  }

  function ClassOf(c: Client, pingSec: nat, now: int): Class {
    if DeadMs(pingSec) > 0 && Elapsed(now, c.lastRx) > DeadMs(pingSec) then Dead
    else if c.hidden > 0 then Hidden
    else if c.hidden < 0 then Unknown
    else Shown
  }

  /** How long it has been so. */
  function Age(c: Client, cls: Class, now: int): nat {
    match cls
    case Dead => Elapsed(now, c.lastRx)
    case Hidden => Elapsed(now, c.hiddenSince)
    case Unknown => Elapsed(now, c.lastAppRx)
    case Shown => 0
  }

  predicate MayGo(c: Client, s: State, scope: Scope, keep: nat, now: int, cls: Class) {
    c.id != keep && Counts(c, s.connected, scope) && ClassOf(c, s.pingSec, now) == cls
  }

  /** Of the first n clients the one of that class for the longest time; -1: none. */
  function Longest(s: State, n: nat, scope: Scope, keep: nat, now: int, cls: Class): (k: int)
    requires n <= |s.clients|
    ensures -1 <= k < n
  {
    if n == 0 then -1
    else
      var k := Longest(s, n - 1, scope, keep, now, cls);
      var c := s.clients[n - 1];
      if MayGo(c, s, scope, keep, now, cls) && (k < 0 || Age(c, cls, now) > Age(s.clients[k], cls, now))
      then n - 1 else k
  }

  lemma {:induction false} LongestIs(s: State, n: nat, scope: Scope, keep: nat, now: int, cls: Class)
    requires n <= |s.clients|
    ensures var k := Longest(s, n, scope, keep, now, cls);
      && (k >= 0 ==> MayGo(s.clients[k], s, scope, keep, now, cls))
      && forall j :: 0 <= j < n && MayGo(s.clients[j], s, scope, keep, now, cls) ==>
        k >= 0 && Age(s.clients[j], cls, now) <= Age(s.clients[k], cls, now)
  {
    if n > 0 { LongestIs(s, n - 1, scope, keep, now, cls); }
  }

  /** The client to close for `keep`; -1: no other one may go. */
  function Pick(s: State, scope: Scope, keep: nat, now: int): (k: int)
    ensures -1 <= k < |s.clients|
  {
    var n := |s.clients|;
    var dead, hidden := Longest(s, n, scope, keep, now, Dead), Longest(s, n, scope, keep, now, Hidden);
    if dead >= 0 then dead else if hidden >= 0 then hidden else Longest(s, n, scope, keep, now, Unknown)
  }

  /** The loop of pickEviction: the three candidates as they come. */
  method FindVictim(s: State, scope: Scope, keep: nat, now: int) returns (k: int)
    ensures k == Pick(s, scope, keep, now)
  {
    var dead, hidden, unknown := -1, -1, -1;
    var i := 0;
    while i < |s.clients|
      invariant 0 <= i <= |s.clients|
      invariant dead == Longest(s, i, scope, keep, now, Dead)
      invariant hidden == Longest(s, i, scope, keep, now, Hidden)
      invariant unknown == Longest(s, i, scope, keep, now, Unknown)
    {
      var c := s.clients[i];
      if c.id != keep && Counts(c, s.connected, scope) {
        var deadMs := DeadMs(s.pingSec);
        if deadMs > 0 && Elapsed(now, c.lastRx) > deadMs {
          if dead < 0 || Elapsed(now, c.lastRx) > Elapsed(now, s.clients[dead].lastRx) { dead := i; }
        } else if c.hidden > 0 {
          if hidden < 0 || Elapsed(now, c.hiddenSince) > Elapsed(now, s.clients[hidden].hiddenSince) { hidden := i; }
        } else if c.hidden < 0 {
          if unknown < 0 || Elapsed(now, c.lastAppRx) > Elapsed(now, s.clients[unknown].lastAppRx) { unknown := i; }
        }
      }
      i := i + 1;
    }
    k := if dead >= 0 then dead else if hidden >= 0 then hidden else unknown;
  }

  /** Whoever goes has missed its pong, is hidden or never said: a dead one before a hidden one before one that
      never said, and the longest of its class; and only if there is none of these, none goes. */
  lemma PickIsFair(s: State, scope: Scope, keep: nat, now: int)
    ensures var k := Pick(s, scope, keep, now);
      if k < 0
      then forall c :: c in s.clients && c.id != keep && Counts(c, s.connected, scope) ==>
         ClassOf(c, s.pingSec, now) == Shown
      else
        var v := s.clients[k];
        var cls := ClassOf(v, s.pingSec, now);
        && v.id != keep && Counts(v, s.connected, scope) && cls != Shown
        && forall c :: c in s.clients && c.id != keep && Counts(c, s.connected, scope) ==>
          match ClassOf(c, s.pingSec, now)
          case Dead => cls == Dead && Age(c, Dead, now) <= Age(v, Dead, now)
          case Hidden => cls == Dead || (cls == Hidden && Age(c, Hidden, now) <= Age(v, Hidden, now))
          case Unknown => cls != Unknown || Age(c, Unknown, now) <= Age(v, Unknown, now)
          case Shown => true
  {
    var n := |s.clients|;
    LongestIs(s, n, scope, keep, now, Dead);
    LongestIs(s, n, scope, keep, now, Hidden);
    LongestIs(s, n, scope, keep, now, Unknown);
    hide Longest, Counts, ClassOf, Age;
  }

  // ---- what events do to the roster

  function IndexOf(r: seq<Client>, id: nat): (k: int)
    ensures -1 <= k < |r|
    ensures k >= 0 ==> r[k].id == id
    ensures k < 0 ==> forall c :: c in r ==> c.id != id
  {
    if r == [] then -1 else if r[|r| - 1].id == id then |r| - 1 else IndexOf(r[..|r| - 1], id)
  }

  function Closed(r: seq<Client>, k: nat): seq<Client>
    requires k < |r|
  {
    r[k := r[k].(evicting := true)]
  }

  datatype Evicted = Evicted(state: State, victim: nat)

  /** pickEviction: the one chosen is closed, or `keep` itself. */
  function Evict(s: State, scope: Scope, keep: nat, now: int): Evicted {
    var k := Pick(s, scope, keep, now);
    if k >= 0 then Evicted(s.(clients := Closed(s.clients, k)), s.clients[k].id)
    else
      var self := IndexOf(s.clients, keep);
      Evicted(if self < 0 then s else s.(clients := Closed(s.clients, self)), keep)
  }

  /** A new entry, in id order. */
  function Put(r: seq<Client>, c: Client): seq<Client> {
    if r == [] || r[|r| - 1].id < c.id then r + [c] else Put(r[..|r| - 1], c) + [r[|r| - 1]]
  }

  /** The older sockets of a tab are closed. */
  function CloseTab(r: seq<Client>, connected: set<nat>, tab: nat): (q: seq<Client>)
    ensures |q| == |r|
  {
    if r == [] then []
    else
      var c := r[|r| - 1];
      CloseTab(r[..|r| - 1], connected, tab) + [if c.tab == tab && Live(c, connected) then c.(evicting := true) else c]
  }

  function Remove(r: seq<Client>, id: nat): seq<Client> {
    if r == [] then [] else Remove(r[..|r| - 1], id) + if r[|r| - 1].id == id then [] else [r[|r| - 1]]
  }

  datatype Event =
    | Connect(id: nat, tab: nat, now: int)
    | Sub(id: nat, ch: string, now: int)
    | Unsub(id: nat, ch: string)
    | Visible(id: nat, hidden: bool, now: int)
    | Receive(id: nat, pong: bool, now: int)
    | Close(id: nat)        // the library's client is no longer open
    | Forget(id: nat)

  /** A library client connects once: its id is new. */
  predicate Enabled(s: State, e: Event) {
    e.Connect? ==> e.id !in s.connected && IndexOf(s.clients, e.id) < 0
  }

  function Newcomer(e: Event): Client
    requires e.Connect?
  {
    Client(e.id, e.tab, e.now, e.now, -1, 0, {}, false)
  }

  /** The newcomer in, its tab's older sockets closed. */
  function LetIn(s: State, e: Event): State
    requires e.Connect?
  {
    var open := s.connected + {e.id};
    var rest := if e.tab != 0 then CloseTab(s.clients, open, e.tab) else s.clients;
    s.(connected := open, clients := Put(rest, Newcomer(e)))
  }

  function Changed(s: State, k: nat, c: Client): State
    requires k < |s.clients|
  {
    s.(clients := s.clients[k := c])
  }

  function Subscribed(s: State, k: nat, e: Event): State
    requires k < |s.clients| && e.Sub?
  {
    var t := Changed(s, k, s.clients[k].(subs := s.clients[k].subs + {e.ch}));
    if LiveCount(t.clients, t.connected, Channel(e.ch)) <= s.maxPerChannel then t
    else
      var v := Evict(t, Channel(e.ch), e.id, e.now);
      if v.victim == e.id && k < |v.state.clients|
      then Changed(v.state, k, v.state.clients[k].(subs := v.state.clients[k].subs - {e.ch}))
      else v.state
  }

  function Step(s: State, e: Event): State
    requires Enabled(s, e)
  {
    var k := IndexOf(s.clients, e.id);
    match e
    case Connect(id, _, now) =>
      var t := LetIn(s, e);
      if LiveCount(t.clients, t.connected, All) <= s.maxClients then t else Evict(t, All, id, now).state
    case Sub(_, _, _) => if k < 0 then s else Subscribed(s, k, e)
    case Unsub(_, ch) => if k < 0 then s else Changed(s, k, s.clients[k].(subs := s.clients[k].subs - {ch}))
    case Visible(_, hidden, now) =>
      if k < 0 then s
      else
        var c := s.clients[k];
        Changed(s, k, c.(hidden := if hidden then 1 else 0,
                         hiddenSince := if hidden && c.hidden != 1 then now else c.hiddenSince))
    case Receive(_, pong, now) =>
      if k < 0 then s
      else Changed(s, k, s.clients[k].(lastRx := now, lastAppRx := if pong then s.clients[k].lastAppRx else now))
    case Close(id) => s.(connected := s.connected - {id})
    case Forget(id) => s.(clients := Remove(s.clients, id))
  }

  // ---- the caps

  function Cap(s: State, scope: Scope): nat {
    if scope.All? then s.maxClients else s.maxPerChannel
  }

  /** No cap is passed, the device's or any channel's. */
  ghost predicate Within(s: State) {
    forall scope :: LiveCount(s.clients, s.connected, scope) <= Cap(s, scope)
  }

  /** One client changed: the count changes by what it counts for. */
  lemma {:induction false} CountChanged(r: seq<Client>, k: nat, c: Client, connected: set<nat>, scope: Scope)
    requires k < |r|
    ensures LiveCount(r[k := c], connected, scope) + (if Counts(r[k], connected, scope) then 1 else 0) ==
      LiveCount(r, connected, scope) + if Counts(c, connected, scope) then 1 else 0
  {
    var q, n := r[k := c], |r| - 1;
    hide Counts;
    if k == n {
      assert q[..n] == r[..n];
    } else {
      assert q[..n] == r[..n][k := c];
      CountChanged(r[..n], k, c, connected, scope);
    }
  }

  lemma {:induction false} CountPut(r: seq<Client>, c: Client, connected: set<nat>, scope: Scope)
    ensures LiveCount(Put(r, c), connected, scope) ==
      LiveCount(r, connected, scope) + if Counts(c, connected, scope) then 1 else 0
  {
    hide Counts;
    var n := |r| - 1;
    if r == [] || r[n].id < c.id {
      assert (r + [c])[..|r|] == r;
    } else {
      CountPut(r[..n], c, connected, scope);
      var q := Put(r[..n], c) + [r[n]];
      assert q[..|q| - 1] == Put(r[..n], c);
    }
  }

  lemma {:induction false} CountClosedTab(r: seq<Client>, connected: set<nat>, tab: nat, scope: Scope)
    ensures LiveCount(CloseTab(r, connected, tab), connected, scope) <= LiveCount(r, connected, scope)
  {
    if r != [] {
      var n := |r| - 1;
      CountClosedTab(r[..n], connected, tab, scope);
      var q := CloseTab(r, connected, tab);
      assert q[..|q| - 1] == CloseTab(r[..n], connected, tab);
    }
  }

  lemma {:induction false} CountRemoved(r: seq<Client>, id: nat, connected: set<nat>, scope: Scope)
    ensures LiveCount(Remove(r, id), connected, scope) <= LiveCount(r, connected, scope)
  {
    hide Counts;
    if r != [] {
      var n := |r| - 1;
      CountRemoved(r[..n], id, connected, scope);
      var q := Remove(r[..n], id);
      assert (q + [r[n]])[..|q|] == q && q + [] == q;
    }
  }

  /** Clients connect with new ids: their opening counts nobody else. */
  lemma {:induction false} CountOpened(r: seq<Client>, connected: set<nat>, id: nat, scope: Scope)
    requires forall c :: c in r ==> c.id != id
    ensures LiveCount(r, connected + {id}, scope) == LiveCount(r, connected, scope)
  {
    if r != [] { CountOpened(r[..|r| - 1], connected, id, scope); }
  }

  lemma {:induction false} CountShut(r: seq<Client>, connected: set<nat>, id: nat, scope: Scope)
    ensures LiveCount(r, connected - {id}, scope) <= LiveCount(r, connected, scope)
  {
    if r != [] { CountShut(r[..|r| - 1], connected, id, scope); }
  }

  lemma {:induction false} SameIds(r: seq<Client>, q: seq<Client>, id: nat)
    requires |r| == |q| && forall i :: 0 <= i < |r| ==> r[i].id == q[i].id
    ensures IndexOf(r, id) == IndexOf(q, id)
  {
    if r != [] { SameIds(r[..|r| - 1], q[..|q| - 1], id); }
  }

  /** Whoever is closed counted: one less where it was, and nowhere more. */
  lemma EvictCloses(s: State, scope: Scope, keep: nat, now: int)
    requires IndexOf(s.clients, keep) >= 0 && Counts(s.clients[IndexOf(s.clients, keep)], s.connected, scope)
    ensures var t := Evict(s, scope, keep, now).state;
      && t.connected == s.connected && t.maxClients == s.maxClients && t.maxPerChannel == s.maxPerChannel
      && |t.clients| == |s.clients|
      && LiveCount(t.clients, s.connected, scope) < LiveCount(s.clients, s.connected, scope)
      && forall other :: LiveCount(t.clients, s.connected, other) <= LiveCount(s.clients, s.connected, other)
  {
    var k := if Pick(s, scope, keep, now) >= 0 then Pick(s, scope, keep, now) else IndexOf(s.clients, keep);
    PickIsFair(s, scope, keep, now);
    assert Counts(s.clients[k], s.connected, scope);
    var c := s.clients[k].(evicting := true);
    hide Pick, Longest;
    forall other
      ensures LiveCount(Closed(s.clients, k), s.connected, other) <= LiveCount(s.clients, s.connected, other)
    {
      CountChanged(s.clients, k, c, s.connected, other);
    }
    CountChanged(s.clients, k, c, s.connected, scope);
  }

  /** A change that counts for no more than before keeps the caps. */
  lemma ChangeKeeps(s: State, k: nat, c: Client)
    requires Within(s) && k < |s.clients|
    requires forall scope :: Counts(c, s.connected, scope) ==> Counts(s.clients[k], s.connected, scope)
    ensures Within(Changed(s, k, c))
  {
    hide Counts;
    var t := Changed(s, k, c);
    forall scope ensures LiveCount(t.clients, t.connected, scope) <= Cap(t, scope) {
      CountChanged(s.clients, k, c, s.connected, scope);
      assert Counts(c, s.connected, scope) ==> Counts(s.clients[k], s.connected, scope);
      assert LiveCount(s.clients, s.connected, scope) <= Cap(s, scope);
    }
  }

  lemma SubKeeps(s: State, k: nat, e: Event)
    requires Within(s) && e.Sub? && k < |s.clients| && IndexOf(s.clients, e.id) == k
    ensures Within(Subscribed(s, k, e))
  {
    var c, scope := s.clients[k].(subs := s.clients[k].subs + {e.ch}), Channel(e.ch);
    var t := Changed(s, k, c);
    forall other ensures LiveCount(t.clients, t.connected, other) <=
      LiveCount(s.clients, s.connected, other) + if other == scope then 1 else 0
    {
      CountChanged(s.clients, k, c, s.connected, other);
    }
    if LiveCount(t.clients, t.connected, scope) > s.maxPerChannel {
      CountChanged(s.clients, k, c, s.connected, scope);
      SameIds(s.clients, t.clients, e.id);
      var v := Evict(t, scope, e.id, e.now);
      EvictCloses(t, scope, e.id, e.now);
      hide Evict, LiveCount;
      assert Within(v.state);
      if v.victim == e.id {
        ChangeKeeps(v.state, k, v.state.clients[k].(subs := v.state.clients[k].subs - {e.ch}));
      }
    }
  }

  lemma {:induction false} PutFinds(r: seq<Client>, c: Client)
    requires forall x :: x in r ==> x.id != c.id
    ensures var k := IndexOf(Put(r, c), c.id); k >= 0 && Put(r, c)[k] == c
  {
    if r != [] && r[|r| - 1].id >= c.id {
      PutFinds(r[..|r| - 1], c);
      var q := Put(r[..|r| - 1], c) + [r[|r| - 1]];
      assert q[..|q| - 1] == Put(r[..|r| - 1], c);
    }
  }

  lemma {:induction false} CloseTabIds(r: seq<Client>, connected: set<nat>, tab: nat)
    ensures forall i :: 0 <= i < |r| ==> CloseTab(r, connected, tab)[i].id == r[i].id
  {
    if r != [] { CloseTabIds(r[..|r| - 1], connected, tab); }
  }

  /** The newcomer adds one to the device's count at most, and to no channel's. */
  lemma LetInCounts(s: State, e: Event, scope: Scope)
    requires e.Connect? && Enabled(s, e)
    ensures LiveCount(LetIn(s, e).clients, LetIn(s, e).connected, scope)
      <= LiveCount(s.clients, s.connected, scope) + if scope.All? then 1 else 0
  {
    var open := s.connected + {e.id};
    CountOpened(s.clients, s.connected, e.id, scope);
    if e.tab != 0 { CountClosedTab(s.clients, open, e.tab, scope); }
    CountPut(if e.tab != 0 then CloseTab(s.clients, open, e.tab) else s.clients, Newcomer(e), open, scope);
    hide LiveCount, Put, CloseTab;
  }

  lemma NewcomerIsIn(s: State, e: Event)
    requires e.Connect? && Enabled(s, e)
    ensures var t := LetIn(s, e); var k := IndexOf(t.clients, e.id);
      && t.maxClients == s.maxClients && t.maxPerChannel == s.maxPerChannel
      && k >= 0 && Counts(t.clients[k], t.connected, All)
  {
    var open := s.connected + {e.id};
    if e.tab != 0 { CloseTabIds(s.clients, open, e.tab); }
    PutFinds(if e.tab != 0 then CloseTab(s.clients, open, e.tab) else s.clients, Newcomer(e));
    hide Put, CloseTab;
  }

  lemma ConnectKeeps(s: State, e: Event)
    requires Within(s) && e.Connect? && Enabled(s, e)
    ensures Within(Step(s, e))
  {
    hide *;
    var t := LetIn(s, e);
    NewcomerIsIn(s, e);
    ConnectIs(s, e);
    forall scope ensures LiveCount(t.clients, t.connected, scope) <= Cap(s, scope) + if scope.All? then 1 else 0 {
      LetInCounts(s, e, scope);
      WithinAt(s, scope);
    }
    if LiveCount(t.clients, t.connected, All) > s.maxClients {
      EvictCloses(t, All, e.id, e.now);
    }
    CapsHeld(s, t, Step(s, e));
  }

  lemma ConnectIs(s: State, e: Event)
    requires e.Connect? && Enabled(s, e)
    ensures var t := LetIn(s, e);
      Step(s, e) ==
        if LiveCount(t.clients, t.connected, All) <= s.maxClients then t else Evict(t, All, e.id, e.now).state
  {
    hide LetIn, LiveCount, Evict;
  }

  lemma WithinAt(s: State, scope: Scope)
    requires Within(s)
    ensures LiveCount(s.clients, s.connected, scope) <= Cap(s, scope)
  {
    hide LiveCount;
  }

  /** One over the device's cap at most, and evicted then. */
  lemma CapsHeld(s: State, t: State, r: State)
    requires t.maxClients == s.maxClients && t.maxPerChannel == s.maxPerChannel
    requires r.maxClients == s.maxClients && r.maxPerChannel == s.maxPerChannel
    requires forall scope ::
      LiveCount(t.clients, t.connected, scope) <= Cap(s, scope) + if scope.All? then 1 else 0
    requires if LiveCount(t.clients, t.connected, All) <= s.maxClients then r == t
             else LiveCount(r.clients, r.connected, All) < LiveCount(t.clients, t.connected, All)
                  && forall scope ::
                       LiveCount(r.clients, r.connected, scope) <= LiveCount(t.clients, t.connected, scope)
    ensures Within(r)
  {
    hide LiveCount;
  }

  lemma StepKeeps(s: State, e: Event)
    requires Within(s) && Enabled(s, e)
    ensures Within(Step(s, e))
  {
    var k := IndexOf(s.clients, e.id);
    match e
    case Connect(_, _, _) => ConnectKeeps(s, e);
    case Sub(_, _, _) => if k >= 0 { SubKeeps(s, k, e); }
    case Close(id) =>
      forall scope ensures LiveCount(s.clients, s.connected - {id}, scope) <= Cap(s, scope) {
        CountShut(s.clients, s.connected, id, scope);
      }
    case Forget(id) =>
      forall scope ensures LiveCount(Remove(s.clients, id), s.connected, scope) <= Cap(s, scope) {
        CountRemoved(s.clients, id, s.connected, scope);
      }
    case _ => if k >= 0 { ChangeKeeps(s, k, Step(s, e).clients[k]); }
  }

  predicate CanRun(s: State, run: seq<Event>)
    decreases run
  {
    run == [] || (Enabled(s, run[0]) && CanRun(Step(s, run[0]), run[1..]))
  }

  function After(s: State, run: seq<Event>): State
    requires CanRun(s, run)
    decreases run
  {
    if run == [] then s else After(Step(s, run[0]), run[1..])
  }

  /** Over every run the live clients stay within the device's cap and each channel's within its own. */
  lemma {:induction false} CapsHold(s: State, run: seq<Event>)
    requires Within(s) && CanRun(s, run)
    ensures Within(After(s, run))
    decreases run
  {
    if run != [] {
      StepKeeps(s, run[0]);
      hide Within, Step, Enabled;
      CapsHold(Step(s, run[0]), run[1..]);
    }
  }

  // ---- who is safe

  lemma {:induction false} PutKeeps(r: seq<Client>, c: Client)
    ensures forall x :: x in r ==> x in Put(r, c)
  {
    if r != [] && r[|r| - 1].id >= c.id {
      PutKeeps(r[..|r| - 1], c);
      assert r == r[..|r| - 1] + [r[|r| - 1]];
    }
  }

  lemma {:induction false} CloseTabSpares(r: seq<Client>, connected: set<nat>, tab: nat)
    ensures forall x :: x in r && x.tab != tab ==> x in CloseTab(r, connected, tab)
  {
    if r != [] {
      CloseTabSpares(r[..|r| - 1], connected, tab);
      assert r == r[..|r| - 1] + [r[|r| - 1]];
    }
  }

  lemma ReplacedKeeps(r: seq<Client>, k: nat, c: Client, x: Client)
    requires k < |r| && x in r && x != r[k]
    ensures x in r[k := c]
  {
    var i :| 0 <= i < |r| && r[i] == x;
    assert r[k := c][i] == x;
  }

  lemma EvictSpares(s: State, scope: Scope, keep: nat, now: int, x: Client)
    requires x in s.clients && x.id != keep && ClassOf(x, s.pingSec, now) == Shown
    ensures x in Evict(s, scope, keep, now).state.clients
  {
    PickIsFair(s, scope, keep, now);
    var k := Pick(s, scope, keep, now);
    var self := IndexOf(s.clients, keep);
    hide Pick, ClassOf;
    if k >= 0 {
      ReplacedKeeps(s.clients, k, s.clients[k].(evicting := true), x);
    } else if self >= 0 {
      ReplacedKeeps(s.clients, self, s.clients[self].(evicting := true), x);
    }
  }

  /** A client whose page is shown and that has not missed a pong stays as it is when another one connects
      or subscribes, unless that is its own tab's next socket. */
  lemma ShownStays(s: State, e: Event, x: Client)
    requires Enabled(s, e) && (e.Connect? || e.Sub?)
    requires x in s.clients && x.id != e.id && ClassOf(x, s.pingSec, e.now) == Shown
    requires e.Connect? && e.tab != 0 ==> x.tab != e.tab
    ensures x in Step(s, e).clients
  {
    if e.Connect? {
      var rest := if e.tab != 0 then CloseTab(s.clients, s.connected + {e.id}, e.tab) else s.clients;
      CloseTabSpares(s.clients, s.connected + {e.id}, e.tab);
      PutKeeps(rest, Newcomer(e));
      EvictSpares(LetIn(s, e), All, e.id, e.now, x);
    } else if IndexOf(s.clients, e.id) >= 0 {
      SubSpares(s, IndexOf(s.clients, e.id), e, x);
    }
  }

  lemma SubSpares(s: State, k: nat, e: Event, x: Client)
    requires e.Sub? && k < |s.clients| && s.clients[k].id == e.id
    requires x in s.clients && x.id != e.id && ClassOf(x, s.pingSec, e.now) == Shown
    ensures x in Subscribed(s, k, e).clients
  {
    var c := s.clients[k].(subs := s.clients[k].subs + {e.ch});
    var t := Changed(s, k, c);
    ReplacedKeeps(s.clients, k, c, x);
    EvictSpares(t, Channel(e.ch), e.id, e.now, x);
    var v := Evict(t, Channel(e.ch), e.id, e.now);
    assert |v.state.clients| == |t.clients| && v.state.clients[k].id == e.id;
    hide Evict, ClassOf, LiveCount;
    ReplacedKeeps(v.state.clients, k, v.state.clients[k].(subs := v.state.clients[k].subs - {e.ch}), x);
  }

  // ---- the roster as the manager changes it

  class Roster {
    var clients: seq<Client>
    var connected: set<nat>
    const maxClients: nat
    const maxPerChannel: nat
    const pingSec: nat

    function Now(): State
      reads this
    {
      State(clients, connected, maxClients, maxPerChannel, pingSec)
    }

    constructor (maxClients: nat, maxPerChannel: nat, pingSec: nat)
      ensures Now() == State([], {}, maxClients, maxPerChannel, pingSec) && Within(Now())
    {
      clients, connected := [], {};
      this.maxClients, this.maxPerChannel, this.pingSec := maxClients, maxPerChannel, pingSec;
    }

    method CountLive(scope: Scope) returns (n: nat)
      ensures n == LiveCount(clients, connected, scope)
    {
      n := 0;
      var i := 0;
      while i < |clients|
        invariant 0 <= i <= |clients| && n == LiveCount(clients[..i], connected, scope)
      {
        assert clients[..i + 1][..i] == clients[..i];
        if Counts(clients[i], connected, scope) { n := n + 1; }
        i := i + 1;
      }
      assert clients[..i] == clients;
    }

    method PickEviction(scope: Scope, keep: nat, now: int) returns (victim: nat)
      modifies this`clients
      ensures Evicted(Now(), victim) == Evict(old(Now()), scope, keep, now)
    {
      var k := FindVictim(Now(), scope, keep, now);
      victim := if k >= 0 then clients[k].id else keep;
      if k < 0 { k := IndexOf(clients, keep); }
      if k >= 0 { clients := Closed(clients, k); }
    }

    /** The older sockets of a tab: marked, and listed for their close. */
    method ReplaceTab(tab: nat) returns (replaced: seq<nat>)
      modifies this`clients
      ensures clients == CloseTab(old(clients), connected, tab)
      ensures forall id :: id in replaced <==>
          exists c :: c in old(clients) && c.id == id && c.tab == tab && Live(c, connected)
    {
      replaced := [];
      ghost var was := clients;
      var done, i := [], 0;
      while i < |clients|
        invariant 0 <= i <= |clients| && clients == was && done == CloseTab(was[..i], connected, tab)
        invariant forall id :: id in replaced <==>
          exists j :: 0 <= j < i && was[j].id == id && was[j].tab == tab && Live(was[j], connected)
      {
        var c := clients[i];
        assert was[..i + 1][..i] == was[..i];
        if c.tab == tab && Live(c, connected) {
          done := done + [c.(evicting := true)];
          replaced := replaced + [c.id];
        } else {
          done := done + [c];
        }
        i := i + 1;
      }
      assert was[..i] == was;
      clients := done;
    }

    /** A new socket; victim: the client to close for it, itself if refused. */
    method OnConnect(id: nat, tab: nat, now: int) returns (victim: nat)
      requires Enabled(Now(), Connect(id, tab, now))
      modifies this
      ensures Now() == Step(old(Now()), Connect(id, tab, now))
    {
      victim := 0;
      connected := connected + {id};
      if tab != 0 {
        var _ := ReplaceTab(tab);
      }
      clients := Put(clients, Client(id, tab, now, now, -1, 0, {}, false));
      var n := CountLive(All);
      if n > maxClients { victim := PickEviction(All, id, now); }
    }

    method OnSub(id: nat, ch: string, now: int)
      modifies this`clients
      ensures Now() == Step(old(Now()), Sub(id, ch, now))
    {
      var k := IndexOf(clients, id);
      if k < 0 { return; }
      clients := clients[k := clients[k].(subs := clients[k].subs + {ch})];
      var n := CountLive(Channel(ch));
      if n > maxPerChannel {
        var victim := PickEviction(Channel(ch), id, now);
        if victim == id && k < |clients| { clients := clients[k := clients[k].(subs := clients[k].subs - {ch})]; }
      }
    }

    method OnVisible(id: nat, hidden: bool, now: int)
      modifies this`clients
      ensures Now() == Step(old(Now()), Visible(id, hidden, now))
    {
      var k := IndexOf(clients, id);
      if k < 0 { return; }
      var c := clients[k];
      if hidden && c.hidden != 1 { c := c.(hiddenSince := now); }
      clients := clients[k := c.(hidden := if hidden then 1 else 0)];
    }
  }
}
