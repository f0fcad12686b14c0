/** Any number of tasks that pin, unpin and free WebSocket clients through one pin table, each
    critical section, event-bit access and expiry of a wait being one step. */
module PinProtocol {
  import opened Options
  import opened PinTable

  /** Where a task is; Looking .. Clearing: in releaseClient of the client id, slot its entry. */
  datatype Pc =
    | Idle
    | Waking(slot: nat)               // unpin is about to set the slot's bit
    | Looking(id: nat, slot: nat)
    | Busy(id: nat, slot: nat)        // found the client pinned by others
    | Blocked(id: nat, slot: nat)     // waits for the slot's bit
    | Clearing(slot: nat)

  /** holds: the pins each task got and has not dropped; late: freed although the wait ran out. */
  datatype State = State(table: seq<Slot>, holds: map<(nat, nat), nat>, pcs: map<nat, Pc>, bits: set<nat>,
                         used: set<nat>, freed: set<nat>, late: set<nat>, closers: map<nat, nat>)

  datatype Event =
    | Connect(id: nat)
    | Pin(task: nat, id: nat)
    | Drop(task: nat, id: nat)
    | SetBit(task: nat)
    | Free(task: nat, id: nat)
    | Look(task: nat)
    | GiveUp(task: nat)               // the bounded wait is over
    | Block(task: nat)
    | Resume(task: nat)               // the bit came
    | Expire(task: nat)
    | ClearBit(task: nat)

  function Start(n: nat): State {
    State(seq(n, _ => CLEAR), map[], map[], {}, {}, {}, {}, map[])
  }

  function Holds(s: State, task: nat, id: nat): nat {
    if (task, id) in s.holds then s.holds[(task, id)] else 0
  }

  function PcOf(s: State, task: nat): Pc {
    if task in s.pcs then s.pcs[task] else Idle
  }

  function At(s: State, task: nat, pc: Pc): State {
    s.(pcs := s.pcs[task := pc])
  }

  /** Ids are never used again, a client is freed once, a task drops only pins it has, and none
      nests as many as wrap the 16-bit count. */
  predicate Enabled(s: State, e: Event) {
    match e
    case Connect(id) => id != 0 && id !in s.used
    case Pin(task, id) => PcOf(s, task).Idle? && Holds(s, task, id) + 1 < PINS
    case Drop(task, id) => PcOf(s, task).Idle? && Holds(s, task, id) > 0
    case SetBit(task) => PcOf(s, task).Waking?
    case Free(task, id) => PcOf(s, task).Idle? && id in s.used && id !in s.closers
    case Look(task) => PcOf(s, task).Looking?
    case GiveUp(task) => PcOf(s, task).Busy?
    case Block(task) => PcOf(s, task).Busy?
    case Resume(task) => PcOf(s, task).Blocked? && PcOf(s, task).slot in s.bits
    case Expire(task) => PcOf(s, task).Blocked?
    case ClearBit(task) => PcOf(s, task).Clearing?
  }

  function Step(s: State, e: Event): State
    requires Enabled(s, e)
  {
    match e
    case Connect(id) =>
      var t := Added(s.table, id);
      if t.None? then s else s.(table := t.value, used := s.used + {id})
    case Pin(task, id) =>
      var t := PinnedIn(s.table, id, task);
      if t.None? then s else s.(table := t.value, holds := s.holds[(task, id) := Holds(s, task, id) + 1])
    case Drop(task, id) =>
      var r := UnpinnedIn(s.table, id, task);
      var t := s.(table := r.table, holds := s.holds[(task, id) := Holds(s, task, id) - 1]);
      if r.wake && r.slot >= 0 then At(t, task, Waking(r.slot)) else t
    case SetBit(task) => At(s, task, Idle).(bits := s.bits + {PcOf(s, task).slot})
    case Free(task, id) =>
      var r := ClosedIn(s.table, id, task);
      var t := s.(table := r.table, closers := s.closers[id := task]);
      if r.slot < 0 then t.(freed := s.freed + {id}) else At(t, task, Looking(id, r.slot))
    case Look(task) =>
      var pc := PcOf(s, task);
      if IsWaiting(s.table, pc.slot) then At(s, task, Busy(pc.id, pc.slot))
      else At(s, task, Clearing(pc.slot)).(table := Done(s.table, pc.slot), freed := s.freed + {pc.id})
    case GiveUp(task) =>
      var pc := PcOf(s, task);
      At(s, task, Clearing(pc.slot))
        .(table := Done(s.table, pc.slot), freed := s.freed + {pc.id}, late := s.late + {pc.id})
    case Block(task) => At(s, task, Blocked(PcOf(s, task).id, PcOf(s, task).slot))
    case Resume(task) =>
      var pc := PcOf(s, task);
      At(s, task, Looking(pc.id, pc.slot)).(bits := s.bits - {pc.slot})
    case Expire(task) => At(s, task, Looking(PcOf(s, task).id, PcOf(s, task).slot))
    case ClearBit(task) => At(s, task, Idle).(bits := s.bits - {PcOf(s, task).slot})
  }

  predicate Releasing(pc: Pc) {
    pc.Looking? || pc.Busy? || pc.Blocked?
  }

  ghost predicate Listed(t: seq<Slot>, id: nat) {
    exists k :: 0 <= k < |t| && t[k].id == id
  }

  lemma ListedStill(t: seq<Slot>, k: nat, x: Slot)
    requires k < |t|
    ensures forall id: nat :: id != t[k].id && Listed(t, id) ==> Listed(t[k := x], id)
    ensures Listed(t[k := x], x.id)
  {
    forall id: nat | id != t[k].id && Listed(t, id) ensures Listed(t[k := x], id) {
      var j :| 0 <= j < |t| && t[j].id == id;
      assert t[k := x][j].id == id;
    }
    assert t[k := x][k].id == x.id;
  }

  /** The table's entries are the clients in use, with the pins that tasks really have. */
  ghost predicate TableTrue(s: State) {
    && (forall k :: 0 <= k < |s.table| ==> SlotValid(s.table[k]))
    && (forall j, k :: 0 <= j < k < |s.table| && s.table[j].id != 0 ==> s.table[j].id != s.table[k].id)
    && (forall k :: 0 <= k < |s.table| && s.table[k].id != 0 ==> s.table[k].id in s.used && s.table[k].id !in s.freed)
    && (forall id: nat :: id in s.used && id !in s.closers ==> id != 0 && Listed(s.table, id))
    && (forall k: nat, t: nat :: 0 <= k < |s.table| && s.table[k].id != 0 ==>
          PinsIn(s.table[k], t) == Holds(s, t, s.table[k].id))
  }

  /** An entry is closed just while its closer is in releaseClient. */
  ghost predicate ClosersTrue(s: State) {
    && (forall k :: 0 <= k < |s.table| && s.table[k].id != 0 ==>
          (s.table[k].open <==> s.table[k].closer.None?) && (s.table[k].closer.Some? <==> s.table[k].id in s.closers))
    && (forall t: nat :: Releasing(PcOf(s, t)) ==>
          var pc := PcOf(s, t);
          && pc.slot < |s.table| && s.table[pc.slot].id == pc.id && pc.id != 0 && s.table[pc.slot].closer == Some(t)
          && pc.id in s.closers && s.closers[pc.id] == t)
  }

  /** Nobody but its closer holds a freed client, unless the wait for it ran out. */
  ghost predicate Safe(s: State) {
    && (forall id :: id in s.freed ==> id in s.closers && id in s.used)
    && (forall id: nat, t: nat :: id in s.freed && id !in s.late && t != s.closers[id] ==> Holds(s, t, id) == 0)
    && (forall id: nat, t: nat :: id !in s.used ==> Holds(s, t, id) == 0)
    && (forall id: nat :: id in s.closers ==> id in s.used)
  }

  ghost predicate Inv(s: State) {
    TableTrue(s) && ClosersTrue(s) && Safe(s)
  }

  lemma SameHolds(s: State, t: State)
    requires t.holds == s.holds
    ensures forall u: nat, id: nat :: Holds(t, u, id) == Holds(s, u, id)
  {
  }

  lemma SetHolds(s: State, t: State, task: nat, id: nat, n: nat)
    requires t.holds == s.holds[(task, id) := n]
    ensures forall u: nat, i: nat :: Holds(t, u, i) == if u == task && i == id then n else Holds(s, u, i)
  {
  }

  lemma SamePcs(s: State, t: State)
    requires t.pcs == s.pcs
    ensures forall u: nat :: PcOf(t, u) == PcOf(s, u)
  {
  }

  lemma SetPc(s: State, t: State, task: nat, pc: Pc)
    requires t.pcs == s.pcs[task := pc]
    ensures forall u: nat :: PcOf(t, u) == if u == task then pc else PcOf(s, u)
  {
  }

  lemma ConnectKeepsTable(s: State, e: Event)
    requires TableTrue(s) && Safe(s) && Enabled(s, e) && e.Connect?
    ensures TableTrue(Step(s, e))
  {
    var t, k := Step(s, e), Find(s.table, 0);
    SameHolds(s, t);
    if k >= 0 {
      var x := CLEAR.(id := e.id, open := true);
      ListedStill(s.table, k, x);
      assert SlotValid(x) && forall u: nat :: PinsIn(x, u) == 0;
    }
    hide Holds, PcOf, Listed, SlotValid, PinsIn;
  }

  lemma ConnectKeeps(s: State, e: Event)
    requires Inv(s) && Enabled(s, e) && e.Connect?
    ensures Inv(Step(s, e))
  {
    var t := Step(s, e);
    ConnectKeepsTable(s, e);
    SameHolds(s, t);
    SamePcs(s, t);
    hide Holds, PcOf, TableTrue;
  }

  lemma PinKeeps(s: State, e: Event)
    requires Inv(s) && Enabled(s, e) && e.Pin?
    ensures Inv(Step(s, e))
  {
    if Step(s, e) != s {
      PinKeepsTable(s, e);
      PinKeepsRest(s, e);
    }
    hide TableTrue, ClosersTrue, Safe, Step, Enabled;
  }

  lemma PinKeepsTable(s: State, e: Event)
    requires Inv(s) && Enabled(s, e) && e.Pin? && Step(s, e) != s
    ensures TableTrue(Step(s, e))
  {
    var k, t := Find(s.table, e.id), Step(s, e);
    PinCounts(s.table[k], e.task);
    SetHolds(s, t, e.task, e.id, Holds(s, e.task, e.id) + 1);
    assert t.table == s.table[k := Pinned(s.table[k], e.task).value];
    ListedStill(s.table, k, Pinned(s.table[k], e.task).value);
    hide Holds, PcOf, Pinned, PinsIn, SlotValid, Listed, ClosersTrue, Safe;
  }

  lemma PinKeepsRest(s: State, e: Event)
    requires Inv(s) && Enabled(s, e) && e.Pin? && Step(s, e) != s
    ensures ClosersTrue(Step(s, e)) && Safe(Step(s, e))
  {
    var k, t := Find(s.table, e.id), Step(s, e);
    PinCounts(s.table[k], e.task);
    SetHolds(s, t, e.task, e.id, Holds(s, e.task, e.id) + 1);
    SamePcs(s, t);
    assert t.table == s.table[k := Pinned(s.table[k], e.task).value];
    hide Holds, PcOf, Pinned, PinsIn, SlotValid, Listed;
  }

  /** An entry changed in place, its pins still true. */
  lemma TableStill(s: State, t: State, k: nat)
    requires TableTrue(s) && k < |s.table| == |t.table| && t.table == s.table[k := t.table[k]]
    requires s.table[k].id == t.table[k].id && SlotValid(t.table[k])
    requires t.used == s.used && t.freed == s.freed && forall id :: id in s.closers ==> id in t.closers
    requires s.table[k].id != 0 ==> forall u: nat :: PinsIn(t.table[k], u) == Holds(t, u, s.table[k].id)
    requires forall u: nat, id: nat :: id != s.table[k].id ==> Holds(t, u, id) == Holds(s, u, id)
    ensures TableTrue(t)
  {
    ListedStill(s.table, k, t.table[k]);
    hide Holds, PinsIn, SlotValid, Listed;
  }

  lemma DropKeepsTable(s: State, e: Event)
    requires TableTrue(s) && Enabled(s, e) && e.Drop?
    ensures TableTrue(Step(s, e))
  {
    var k, t := Find(s.table, e.id), Step(s, e);
    SetHolds(s, t, e.task, e.id, Holds(s, e.task, e.id) - 1);
    if e.id != 0 && k >= 0 {
      UnpinCounts(s.table[k], e.task);
      assert t.table == s.table[k := Unpinned(s.table[k], e.task)];
      TableStill(s, t, k);
    } else {
      assert t.table == s.table && forall j :: 0 <= j < |s.table| && s.table[j].id != 0 ==> s.table[j].id != e.id;
      hide Holds, PinsIn, SlotValid, Listed;
    }
  }

  lemma DropKeepsClosers(s: State, e: Event)
    requires ClosersTrue(s) && TableTrue(s) && Enabled(s, e) && e.Drop?
    ensures ClosersTrue(Step(s, e))
  {
    var k, t := Find(s.table, e.id), Step(s, e);
    if t.pcs == s.pcs { SamePcs(s, t); } else { SetPc(s, t, e.task, Waking(k)); }
    if e.id != 0 && k >= 0 {
      UnpinCounts(s.table[k], e.task);
      assert t.table == s.table[k := Unpinned(s.table[k], e.task)];
    }
    hide Holds, PcOf, Unpinned, OthersPinned, TableTrue, Find, PinsIn;
  }

  lemma DropIsSafe(s: State, e: Event)
    requires Safe(s) && Enabled(s, e) && e.Drop?
    ensures Safe(Step(s, e))
  {
    SetHolds(s, Step(s, e), e.task, e.id, Holds(s, e.task, e.id) - 1);
    hide Holds, UnpinnedIn;
  }

  lemma DropKeeps(s: State, e: Event)
    requires Inv(s) && Enabled(s, e) && e.Drop?
    ensures Inv(Step(s, e))
  {
    hide TableTrue, ClosersTrue, Safe, Step, Enabled;
    DropKeepsTable(s, e);
    DropKeepsClosers(s, e);
    DropIsSafe(s, e);
  }

  lemma FreeKeeps(s: State, e: Event)
    requires Inv(s) && Enabled(s, e) && e.Free?
    ensures Inv(Step(s, e))
  {
    var k := Find(s.table, e.id);
    assert k >= 0 && e.id != 0 && s.table[k].id == e.id && s.table[k].closer.None?;
    if OthersPinned(s.table[k], e.task) { FreeLater(s, e, k); } else { FreeAtOnce(s, e, k); }
  }

  lemma FreeLater(s: State, e: Event, k: nat)
    requires Inv(s) && Enabled(s, e) && e.Free? && e.id != 0 && k < |s.table| && k == Find(s.table, e.id)
    requires OthersPinned(s.table[k], e.task) && s.table[k].closer.None?
    ensures Inv(Step(s, e))
  {
    var t := Step(s, e);
    SameHolds(s, t);
    SetPc(s, t, e.task, Looking(e.id, k));
    TableStill(s, t, k);
    hide Holds, PcOf, OthersPinned, Find, SlotValid, PinsIn, Listed;
  }

  lemma FreeAtOnce(s: State, e: Event, k: nat)
    requires Inv(s) && Enabled(s, e) && e.Free? && e.id != 0 && k < |s.table| && k == Find(s.table, e.id)
    requires !OthersPinned(s.table[k], e.task) && s.table[k].closer.None?
    ensures Inv(Step(s, e))
  {
    FreeAtOnceClears(s, e, k);
    FreeAtOnceCloses(s, e, k);
    hide TableTrue, ClosersTrue, Safe, Step, Enabled;
  }

  lemma FreeAtOnceClears(s: State, e: Event, k: nat)
    requires Inv(s) && Enabled(s, e) && e.Free? && e.id != 0 && k < |s.table| && k == Find(s.table, e.id)
    requires !OthersPinned(s.table[k], e.task) && s.table[k].closer.None?
    ensures TableTrue(Step(s, e)) && Safe(Step(s, e))
  {
    var t := Step(s, e);
    SameHolds(s, t);
    forall u: nat | u != e.task ensures Holds(s, u, e.id) == 0 {
      assert PinsIn(s.table[k], u) == Holds(s, u, e.id);
      OthersAreUsers(s.table[k], e.task);
    }
    ListedStill(s.table, k, CLEAR);
    hide Holds, PcOf, OthersPinned, Find, SlotValid, PinsIn, Listed, ClosersTrue;
  }

  lemma FreeAtOnceCloses(s: State, e: Event, k: nat)
    requires Inv(s) && Enabled(s, e) && e.Free? && e.id != 0 && k < |s.table| && k == Find(s.table, e.id)
    requires !OthersPinned(s.table[k], e.task) && s.table[k].closer.None?
    ensures ClosersTrue(Step(s, e))
  {
    SamePcs(s, Step(s, e));
    hide Holds, PcOf, OthersPinned, Find, SlotValid, PinsIn, Listed, Safe;
  }

  lemma LookKeeps(s: State, e: Event)
    requires Inv(s) && Enabled(s, e) && (e.Look? || e.GiveUp?)
    ensures Inv(Step(s, e))
  {
    var pc, t := PcOf(s, e.task), Step(s, e);
    SameHolds(s, t);
    SetPc(s, t, e.task, PcOf(t, e.task));
    assert s.table[pc.slot].id == pc.id && s.table[pc.slot].closer == Some(e.task);
    forall u: nat | u != e.task && !IsWaiting(s.table, pc.slot) ensures Holds(s, u, pc.id) == 0 {
      assert PinsIn(s.table[pc.slot], u) == Holds(s, u, pc.id);
      OthersAreUsers(s.table[pc.slot], e.task);
    }
    ListedStill(s.table, pc.slot, t.table[pc.slot]);
    hide Holds, PcOf, PinsIn, Listed;
  }

  lemma OtherKeeps(s: State, e: Event)
    requires Inv(s) && Enabled(s, e) && (e.SetBit? || e.Block? || e.Resume? || e.Expire? || e.ClearBit?)
    ensures Inv(Step(s, e))
  {
    var t := Step(s, e);
    SameHolds(s, t);
    SetPc(s, t, e.task, PcOf(t, e.task));
    hide Holds, PcOf, PinsIn;
  }

  lemma StepKeeps(s: State, e: Event)
    requires Inv(s) && Enabled(s, e)
    ensures Inv(Step(s, e))
  {
    hide Inv, Step, Enabled;
    match e
    case Connect(_) => ConnectKeeps(s, e);
    case Pin(_, _) => PinKeeps(s, e);
    case Drop(_, _) => DropKeeps(s, e);
    case Free(_, _) => FreeKeeps(s, e);
    case Look(_) => LookKeeps(s, e);
    case GiveUp(_) => LookKeeps(s, e);
    case _ => OtherKeeps(s, e);
  }

  predicate CanRun(s: State, run: seq<Event>)
    decreases run
  {
    run == [] || (Enabled(s, run[0]) && CanRun(Step(s, run[0]), run[1..]))
  }

  function After(s: State, run: seq<Event>): State
    requires CanRun(s, run)
    decreases run
  {
    if run == [] then s else After(Step(s, run[0]), run[1..])
  }

  lemma StartIsGood(n: nat)
    ensures Inv(Start(n))
  {
    assert forall k :: 0 <= k < n ==> Start(n).table[k] == CLEAR;
    assert forall t: nat :: PcOf(Start(n), t).Idle?;
  }

  lemma {:induction false} RunKeeps(s: State, run: seq<Event>)
    requires Inv(s) && CanRun(s, run)
    ensures Inv(After(s, run))
    decreases run
  {
    if run != [] {
      StepKeeps(s, run[0]);
      hide Inv, Step, Enabled;
      RunKeeps(Step(s, run[0]), run[1..]);
    }
  }

  /** Whatever the tasks do: once a client is freed, no pin of it succeeds, and nobody but the task that
      frees it has one, unless its bounded wait ran out. */
  lemma FreedIsUnused(n: nat, run: seq<Event>, id: nat)
    requires CanRun(Start(n), run) && id in After(Start(n), run).freed
    ensures var s := After(Start(n), run);
      && id in s.closers && (forall task :: PinnedIn(s.table, id, task).None?)
      && (id !in s.late ==> forall task: nat :: task != s.closers[id] ==> Holds(s, task, id) == 0)
  {
    StartIsGood(n);
    RunKeeps(Start(n), run);
  }

  // ---- wake-ups

  /** Only task c frees clients. */
  predicate OneCloser(run: seq<Event>, c: nat) {
    forall i :: 0 <= i < |run| && run[i].Free? ==> run[i].task == c
  }

  /** The bit of a slot is set, or a task is about to set it. */
  ghost predicate WakeComes(s: State, slot: nat) {
    slot in s.bits || exists t: nat :: PcOf(s, t) == Waking(slot)
  }

  predicate Waits(pc: Pc) {
    pc.Busy? || pc.Blocked?
  }

  /** Every task that waits for a slot has others there still, or its bit is set or about to be. */
  ghost predicate NoneLost(s: State) {
    forall t: nat :: Waits(PcOf(s, t)) ==> Sound(s, PcOf(s, t).slot)
  }

  ghost predicate Sound(s: State, slot: nat) {
    IsWaiting(s.table, slot) || WakeComes(s, slot)
  }

  /** A task done with a slot clears its bit where another already waits for that slot, nobody else has a pin
      there any more, and no unpin is about to set the bit again. */
  ghost predicate LosesOne(s: State, e: Event)
    requires Enabled(s, e)
  {
    && e.ClearBit?
    && var slot := PcOf(s, e.task).slot;
      && !IsWaiting(s.table, slot) && (forall u: nat :: PcOf(s, u) != Waking(slot))
      && exists t: nat :: Waits(PcOf(s, t)) && PcOf(s, t).slot == slot
  }

  /** A slot's wait stays sound where neither its entry nor its bit changes and no task stops to wake it. */
  lemma SoundStill(s: State, t: State, slot: nat)
    requires Sound(s, slot) && (IsWaiting(s.table, slot) ==> IsWaiting(t.table, slot))
    requires slot in s.bits ==> slot in t.bits
    requires forall u: nat :: PcOf(s, u) == Waking(slot) ==> PcOf(t, u) == Waking(slot) || slot in t.bits
    ensures Sound(t, slot)
  {
    hide PcOf, IsWaiting;
    if slot !in t.bits && !IsWaiting(t.table, slot) {
      var u: nat :| PcOf(s, u) == Waking(slot);
      assert PcOf(t, u) == Waking(slot);
    }
  }

  lemma DropLosesNone(s: State, e: Event)
    requires Inv(s) && NoneLost(s) && Enabled(s, e) && e.Drop?
    ensures NoneLost(Step(s, e))
  {
    var k, t := Find(s.table, e.id), Step(s, e);
    if t.pcs == s.pcs { SamePcs(s, t); } else { SetPc(s, t, e.task, Waking(k)); }
    forall u: nat | Waits(PcOf(t, u)) ensures Sound(t, PcOf(t, u).slot) {
      var slot := PcOf(s, u).slot;
      assert PcOf(s, u) == PcOf(t, u) && s.table[slot].closer == Some(u);
      if IsWaiting(s.table, slot) && !IsWaiting(t.table, slot) {
        assert k == slot && PcOf(t, e.task) == Waking(slot);
      } else {
        SoundStill(s, t, slot);
      }
    }
  }

  lemma PinLosesNone(s: State, e: Event)
    requires Inv(s) && NoneLost(s) && Enabled(s, e) && (e.Pin? || e.Connect?)
    ensures NoneLost(Step(s, e))
  {
    var t := Step(s, e);
    SamePcs(s, t);
    forall u: nat | Waits(PcOf(t, u)) ensures Sound(t, PcOf(t, u).slot) {
      assert t.table[PcOf(s, u).slot] == s.table[PcOf(s, u).slot];
      SoundStill(s, t, PcOf(s, u).slot);
    }
  }

  /** Steps of releaseClient and of the setting of a bit: they change the entry and the bit of their own slot alone,
      and a slot has one closer. */
  lemma CloserLosesNone(s: State, e: Event)
    requires Inv(s) && NoneLost(s) && Enabled(s, e) && !e.Drop? && !e.Pin? && !e.Connect? && !e.ClearBit?
    ensures NoneLost(Step(s, e))
  {
    var t := Step(s, e);
    if t.pcs == s.pcs { SamePcs(s, t); } else { SetPc(s, t, e.task, PcOf(t, e.task)); }
    forall u: nat | Waits(PcOf(t, u)) ensures Sound(t, PcOf(t, u).slot) {
      if u != e.task {
        assert s.table[PcOf(s, u).slot].closer == Some(u) && t.table[PcOf(s, u).slot] == s.table[PcOf(s, u).slot];
        SoundStill(s, t, PcOf(s, u).slot);
      } else if e.Block? {
        SoundStill(s, t, PcOf(s, u).slot);
      }
    }
  }

  lemma ClearLosesIff(s: State, e: Event)
    requires Inv(s) && NoneLost(s) && Enabled(s, e) && e.ClearBit?
    ensures NoneLost(Step(s, e)) <==> !LosesOne(s, e)
  {
    var t, slot := Step(s, e), PcOf(s, e.task).slot;
    SetPc(s, t, e.task, Idle);
    if LosesOne(s, e) {
      var u: nat :| Waits(PcOf(s, u)) && PcOf(s, u).slot == slot;
      assert Waits(PcOf(t, u)) && !Sound(t, slot);
    } else {
      forall u: nat | Waits(PcOf(t, u)) ensures Sound(t, PcOf(t, u).slot) {
        if PcOf(s, u).slot != slot {
          SoundStill(s, t, PcOf(s, u).slot);
        } else if !IsWaiting(s.table, slot) {
          var w: nat :| PcOf(s, w) == Waking(slot);
          assert PcOf(t, w) == Waking(slot);
        }
      }
    }
  }

  /** The exact step at which a wake-up is lost, whatever the tasks and however many of them free clients. */
  lemma LostIff(s: State, e: Event)
    requires Inv(s) && NoneLost(s) && Enabled(s, e)
    ensures NoneLost(Step(s, e)) <==> !LosesOne(s, e)
  {
    hide Inv, NoneLost, Step, Enabled;
    match e
    case Drop(_, _) => DropLosesNone(s, e);
    case Pin(_, _) => PinLosesNone(s, e);
    case Connect(_) => PinLosesNone(s, e);
    case ClearBit(_) => ClearLosesIff(s, e);
    case _ => CloserLosesNone(s, e);
  }

  /** No state of the run has a lost wake-up. */
  ghost predicate AlwaysNoneLost(s: State, run: seq<Event>)
    requires CanRun(s, run)
    decreases run
  {
    NoneLost(s) && (run != [] ==> AlwaysNoneLost(Step(s, run[0]), run[1..]))
  }

  ghost predicate NeverLoses(s: State, run: seq<Event>)
    requires CanRun(s, run)
    decreases run
  {
    run == [] || (!LosesOne(s, run[0]) && NeverLoses(Step(s, run[0]), run[1..]))
  }

  lemma {:induction false} RunLosesIff(s: State, run: seq<Event>)
    requires Inv(s) && NoneLost(s) && CanRun(s, run)
    ensures AlwaysNoneLost(s, run) <==> NeverLoses(s, run)
    ensures NeverLoses(s, run) ==> NoneLost(After(s, run))
    decreases run
  {
    if run != [] {
      StepKeeps(s, run[0]);
      LostIff(s, run[0]);
      var t := Step(s, run[0]);
      hide Inv, NoneLost, LosesOne, Step, Enabled;
      if NoneLost(t) { RunLosesIff(t, run[1..]); } else { LostAtOnce(t, run[1..]); }
    }
  }

  lemma LostAtOnce(s: State, run: seq<Event>)
    requires CanRun(s, run) && !NoneLost(s)
    ensures !AlwaysNoneLost(s, run)
  {
    hide NoneLost;
  }

  lemma StartLosesNone(n: nat)
    ensures Inv(Start(n)) && NoneLost(Start(n))
  {
    StartIsGood(n);
    assert forall t: nat :: PcOf(Start(n), t).Idle?;
  }

  /** Over every run of any tasks no wake-up is lost exactly if it takes no such step. */
  lemma WakeUpsLostIff(n: nat, run: seq<Event>)
    requires CanRun(Start(n), run)
    ensures AlwaysNoneLost(Start(n), run) <==> NeverLoses(Start(n), run)
  {
    StartLosesNone(n);
    RunLosesIff(Start(n), run);
  }

  ghost predicate OnlyReleases(s: State, c: nat) {
    forall t: nat :: t != c ==> !Releasing(PcOf(s, t)) && !PcOf(s, t).Clearing?
  }

  lemma OneReleases(s: State, e: Event, c: nat)
    requires OnlyReleases(s, c) && Enabled(s, e) && (e.Free? ==> e.task == c)
    ensures OnlyReleases(Step(s, e), c) && !LosesOne(s, e)
  {
    var t := Step(s, e);
    if t.pcs == s.pcs { SamePcs(s, t); } else { SetPc(s, t, e.task, PcOf(t, e.task)); }
  }

  lemma {:induction false} OneCloserLosesNone(s: State, run: seq<Event>, c: nat)
    requires OnlyReleases(s, c) && CanRun(s, run) && OneCloser(run, c)
    ensures NeverLoses(s, run)
    decreases run
  {
    if run != [] {
      OneReleases(s, run[0], c);
      assert OneCloser(run[1..], c);
      hide OnlyReleases, Step, Enabled, OneCloser, LosesOne;
      OneCloserLosesNone(Step(s, run[0]), run[1..], c);
    }
  }

  /** So with one task that frees clients none is ever lost: when it is blocked and nobody else has a pin any more,
      its bit is set or an unpin is about to set it. */
  lemma NoLostWakeUp(n: nat, run: seq<Event>, c: nat)
    requires CanRun(Start(n), run) && OneCloser(run, c)
    ensures AlwaysNoneLost(Start(n), run)
    ensures var s := After(Start(n), run);
      PcOf(s, c).Blocked? ==> IsWaiting(s.table, PcOf(s, c).slot) || WakeComes(s, PcOf(s, c).slot)
  {
    assert forall t: nat :: PcOf(Start(n), t).Idle?;
    OneCloserLosesNone(Start(n), run, c);
    StartLosesNone(n);
    RunLosesIff(Start(n), run);
  }

  lemma Prepend(s: State, e: Event, rest: seq<Event>)
    requires Enabled(s, e) && CanRun(Step(s, e), rest)
    ensures CanRun(s, [e] + rest) && After(s, [e] + rest) == After(Step(s, e), rest)
  {
    assert ([e] + rest)[1..] == rest;
  }

  lemma {:induction false} Then(s: State, run: seq<Event>, e: Event)
    requires CanRun(s, run) && Enabled(After(s, run), e)
    ensures CanRun(s, run + [e]) && After(s, run + [e]) == Step(After(s, run), e)
    decreases run
  {
    hide Step, Enabled;
    if run == [] {
      Prepend(s, e, []);
      assert run + [e] == [e] + [];
    } else {
      Then(Step(s, run[0]), run[1..], e);
      Prepend(s, run[0], run[1..] + [e]);
      assert run + [e] == [run[0]] + (run[1..] + [e]);
    }
  }

  /** Two of them can lose one: the first, done with a slot, clears the bit that was set for the second. */
  lemma TwoClosersCanLoseOne() returns (run: seq<Event>)
    ensures CanRun(Start(1), run)
    ensures var s := After(Start(1), run);
      PcOf(s, 3) == Blocked(6, 0) && !IsWaiting(s.table, 0) && !WakeComes(s, 0)
  {
    var s;
    run, s := FirstFrees();
    run, s := SecondBlocks(run, s);
    hide After;
    run, s := Go(run, s, Drop(4, 6));
    run, s := Go(run, s, SetBit(4));
    run, s := Go(run, s, ClearBit(1));
    assert s.pcs == map[1 := Idle, 2 := Idle, 3 := Blocked(6, 0), 4 := Idle];
  }

  lemma FirstFrees() returns (run: seq<Event>, s: State)
    ensures CanRun(Start(1), run) && s == After(Start(1), run)
    ensures s.table == [CLEAR] && s.used == {5} && s.closers == map[5 := 1] && Holds(s, 4, 6) == 0
    ensures s.pcs == map[1 := Clearing(0), 2 := Idle]
  {
    run, s := [], Start(1);
    assert CanRun(s, []) && After(s, []) == s;
    hide After;
    run, s := Go(run, s, Connect(5));
    run, s := Go(run, s, Pin(2, 5));
    run, s := Go(run, s, Free(1, 5));
    run, s := LetsGo(run, s);
  }

  lemma LetsGo(run: seq<Event>, s: State) returns (more: seq<Event>, t: State)
    requires CanRun(Start(1), run) && s == After(Start(1), run)
    requires s.table == [Slot(5, false, Some(1), User(2, 1), NOBODY)] && s.pcs == map[1 := Looking(5, 0)]
    requires Holds(s, 2, 5) == 1
    ensures CanRun(Start(1), more) && t == After(Start(1), more)
    ensures t.table == [CLEAR] && t.used == s.used && t.closers == s.closers && Holds(t, 4, 6) == Holds(s, 4, 6)
    ensures t.pcs == map[1 := Clearing(0), 2 := Idle]
  {
    hide After;
    more, t := Go(run, s, Drop(2, 5));
    more, t := Go(more, t, Look(1));
    more, t := Go(more, t, SetBit(2));
  }

  lemma SecondBlocks(run: seq<Event>, s: State) returns (more: seq<Event>, t: State)
    requires CanRun(Start(1), run) && s == After(Start(1), run)
    requires s.table == [CLEAR] && s.used == {5} && s.closers == map[5 := 1] && Holds(s, 4, 6) == 0
    requires s.pcs == map[1 := Clearing(0), 2 := Idle]
    ensures CanRun(Start(1), more) && t == After(Start(1), more)
    ensures t.table == [Slot(6, false, Some(3), User(4, 1), NOBODY)] && Holds(t, 4, 6) == 1
    ensures t.pcs == map[1 := Clearing(0), 2 := Idle, 3 := Blocked(6, 0)]
  {
    hide After;
    more, t := SecondIsPinned(run, s);
    more, t := Go(more, t, Free(3, 6));
    more, t := Go(more, t, Look(3));
    more, t := Go(more, t, Block(3));
  }

  lemma SecondIsPinned(run: seq<Event>, s: State) returns (more: seq<Event>, t: State)
    requires CanRun(Start(1), run) && s == After(Start(1), run)
    requires s.table == [CLEAR] && s.used == {5} && Holds(s, 4, 6) == 0
    requires s.pcs == map[1 := Clearing(0), 2 := Idle]
    ensures CanRun(Start(1), more) && t == After(Start(1), more)
    ensures t.table == [Slot(6, true, None, User(4, 1), NOBODY)] && Holds(t, 4, 6) == 1
    ensures t.pcs == s.pcs && t.closers == s.closers && t.used == {5, 6}
  {
    hide After;
    more, t := Go(run, s, Connect(6));
    more, t := Go(more, t, Pin(4, 6));
  }

  lemma Go(run: seq<Event>, s: State, e: Event) returns (more: seq<Event>, t: State)
    requires CanRun(Start(1), run) && s == After(Start(1), run) && Enabled(s, e)
    ensures CanRun(Start(1), more) && t == After(Start(1), more) == Step(s, e)
  {
    Then(Start(1), run, e);
    more, t := run + [e], Step(s, e);
  }

  /** A wait that ends well: the client is freed once the pin is dropped, well before the wait runs out. */
  lemma WaitEndsWell() returns (run: seq<Event>)
    ensures CanRun(Start(1), run)
    ensures var s := After(Start(1), run);
      s.table == [CLEAR] && s.freed == {5} && s.late == {} && s.bits == {} && PcOf(s, 1).Idle? && PcOf(s, 2).Idle?
  {
    var s := Start(1);
    run := [];
    assert CanRun(s, []) && After(s, []) == s;
    hide After;
    run, s := Go(run, s, Connect(5));
    run, s := Go(run, s, Pin(2, 5));
    run, s := Go(run, s, Free(1, 5));
    run, s := Go(run, s, Look(1));
    run, s := Go(run, s, Block(1));
    assert s.table == [Slot(5, false, Some(1), User(2, 1), NOBODY)] && s.pcs == map[1 := Blocked(5, 0)];
    run, s := WaitEnds(run, s);
  }

  lemma WaitEnds(run: seq<Event>, s: State) returns (more: seq<Event>, t: State)
    requires CanRun(Start(1), run) && s == After(Start(1), run) && s.pcs == map[1 := Blocked(5, 0)]
    requires s.table == [Slot(5, false, Some(1), User(2, 1), NOBODY)] && Holds(s, 2, 5) == 1
    requires s.freed == s.late == {} && s.bits == {}
    ensures CanRun(Start(1), more) && t == After(Start(1), more)
    ensures t.table == [CLEAR] && t.freed == {5} && t.late == {} && t.bits == {}
    ensures PcOf(t, 1).Idle? && PcOf(t, 2).Idle?
  {
    hide After;
    more, t := Go(run, s, Drop(2, 5));
    more, t := Go(more, t, SetBit(2));
    more, t := Go(more, t, Resume(1));
    more, t := Go(more, t, Look(1));
    more, t := Go(more, t, ClearBit(1));
  }

  /** A wait that runs out: the client is freed all the same, marked as late, and its entry is free again. */
  lemma GivesUp(s: State, task: nat)
    requires Inv(s) && PcOf(s, task).Blocked? && IsWaiting(s.table, PcOf(s, task).slot)
    ensures var pc := PcOf(s, task);
      && Enabled(s, Expire(task)) && Enabled(Step(s, Expire(task)), Look(task))
      && var busy := Step(Step(s, Expire(task)), Look(task));
      && Enabled(busy, GiveUp(task))
      && var given := Step(busy, GiveUp(task));
      && pc.id in given.freed && pc.id in given.late && given.table[pc.slot] == CLEAR && Enabled(given, ClearBit(task))
      && PcOf(Step(given, ClearBit(task)), task).Idle? && pc.slot !in Step(given, ClearBit(task)).bits
  {
    hide TableTrue, Safe;
  }

  /** A bit wakes one wait: whoever resumes takes it. */
  lemma ResumeTakesTheBit(s: State, task: nat)
    requires Enabled(s, Resume(task))
    ensures var t := Step(s, Resume(task));
      t.bits == s.bits - {PcOf(s, task).slot} && PcOf(t, task) == Looking(PcOf(s, task).id, PcOf(s, task).slot)
  {
  }
}
