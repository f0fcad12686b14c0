/** A table of objects that one task may free while others use them. */
module PinTable {
  import opened Options

  /** A task's pins of an entry; n has 16 bits, and n == 0 is a free place. */
  datatype User = User(task: nat, n: nat)

  /** id 0: free; open: not closing; at most two tasks may pin it. */
  datatype Slot = Slot(id: nat, open: bool, closer: Option<nat>, a: User, b: User)

  const NOBODY := User(0, 0)
  const CLEAR := Slot(0, false, None, NOBODY, NOBODY)
  const PINS := 65536

  predicate Uses(u: User, task: nat) {
    u.n > 0 && u.task == task
  }

  /** How many pins a task has in the entry. */
  function PinsIn(s: Slot, task: nat): nat {
    if Uses(s.a, task) then s.a.n else if Uses(s.b, task) then s.b.n else 0
  }

  predicate OthersPinned(s: Slot, task: nat) {
    (s.a.n > 0 && s.a.task != task) || (s.b.n > 0 && s.b.task != task)
  }

  predicate SlotValid(s: Slot) {
    && s.a.n < PINS && s.b.n < PINS && (s.a.n > 0 && s.b.n > 0 ==> s.a.task != s.b.task)
    && (s.id == 0 ==> s == CLEAR) && (s.closer.Some? ==> !s.open)
  }

  /** Whether others have pins, and that is all that the table keeps of them. */
  lemma OthersAreUsers(s: Slot, task: nat)
    ensures OthersPinned(s, task) <==> exists t :: t != task && PinsIn(s, t) > 0
  {
    if OthersPinned(s, task) {
      var t := if s.a.n > 0 && s.a.task != task then s.a.task else s.b.task;
      assert PinsIn(s, t) > 0;
    }
  }

  /** Another pin for a task that has one; a new task gets the first free place, if any. */
  function Pinned(s: Slot, task: nat): Option<Slot> {
    if Uses(s.a, task) then Some(s.(a := User(task, (s.a.n + 1) % PINS)))
    else if Uses(s.b, task) then Some(s.(b := User(task, (s.b.n + 1) % PINS)))
    else if s.a.n == 0 then Some(s.(a := User(task, 1)))
    else if s.b.n == 0 then Some(s.(b := User(task, 1)))
    else None
  }

  function Unpinned(s: Slot, task: nat): Slot {
    if Uses(s.a, task) then s.(a := s.a.(n := s.a.n - 1))
    else if Uses(s.b, task) then s.(b := s.b.(n := s.b.n - 1))
    else s
  }

  lemma PinCounts(s: Slot, task: nat)
    requires SlotValid(s) && s.id != 0 && Pinned(s, task).Some? && PinsIn(s, task) + 1 < 65536
    ensures var t := Pinned(s, task).value;
      && SlotValid(t) && t.id == s.id && t.open == s.open && t.closer == s.closer
      && forall u :: PinsIn(t, u) == PinsIn(s, u) + if u == task then 1 else 0
  {
  }

  lemma UnpinCounts(s: Slot, task: nat)
    requires SlotValid(s) && s.id != 0
    ensures var t := Unpinned(s, task);
      && SlotValid(t) && t.id == s.id && t.open == s.open && t.closer == s.closer
      && forall u :: PinsIn(t, u) == if u == task && PinsIn(s, u) > 0 then PinsIn(s, u) - 1 else PinsIn(s, u)
  {
  }

  /** The first entry with that id, or the first free one for id 0; -1: none. */
  function Find(t: seq<Slot>, id: nat): (k: int)
    ensures -1 <= k < |t|
    ensures k >= 0 ==> t[k].id == id
    ensures k < 0 ==> forall j :: 0 <= j < |t| ==> t[j].id != id
  {
    if t == [] then -1
    else if t[0].id == id then 0
    else
      var k := Find(t[1..], id);
      assert k < 0 ==> forall j :: 1 <= j < |t| ==> t[j].id == t[1..][j - 1].id;
      if k < 0 then -1 else k + 1
  }

  /** add */
  function Added(t: seq<Slot>, id: nat): Option<seq<Slot>> {
    var k := Find(t, 0);
    if id == 0 || k < 0 then None else Some(t[k := CLEAR.(id := id, open := true)])
  }

  /** pin; None: no pin. */
  function PinnedIn(t: seq<Slot>, id: nat, task: nat): Option<seq<Slot>> {
    var k := Find(t, id);
    if id == 0 || k < 0 || !t[k].open then None
    else match Pinned(t[k], task) case None => None case Some(s) => Some(t[k := s])
  }

  datatype Unpin = Unpin(table: seq<Slot>, wake: bool, slot: int)

  /** unpin */
  function UnpinnedIn(t: seq<Slot>, id: nat, task: nat): Unpin {
    var k := Find(t, id);
    if id == 0 || k < 0 then Unpin(t, false, -1)
    else
      var s := Unpinned(t[k], task);
      Unpin(t[k := s], s.closer.Some? && !OthersPinned(s, s.closer.value), k)
  }

  datatype Closing = Closing(table: seq<Slot>, slot: int)

  /** close; slot -1: gone at once. */
  function ClosedIn(t: seq<Slot>, id: nat, task: nat): Closing {
    var k := Find(t, id);
    if id == 0 || k < 0 then Closing(t, -1)
    else if OthersPinned(t[k], task) then Closing(t[k := t[k].(open := false, closer := Some(task))], k)
    else Closing(t[k := CLEAR], -1)
  }

  /** A pin is had exactly of a listed entry that is not closing, by a task that has one of it or as one of two. */
  lemma PinnedIff(t: seq<Slot>, id: nat, task: nat)
    ensures PinnedIn(t, id, task).Some? <==>
      && id != 0 && Find(t, id) >= 0
      && var s := t[Find(t, id)];
        s.open && (PinsIn(s, task) > 0 || s.a.n == 0 || s.b.n == 0)
  {
  }

  /** An unpin wakes the closer of an entry exactly if after it nobody else has a pin there. */
  lemma WakesIff(t: seq<Slot>, id: nat, task: nat)
    ensures var r := UnpinnedIn(t, id, task);
      r.wake <==>
        && id != 0 && r.slot >= 0 && r.slot == Find(t, id) && r.table[r.slot].closer.Some?
        && forall u :: u != r.table[r.slot].closer.value ==> PinsIn(r.table[r.slot], u) == 0
  {
    var r := UnpinnedIn(t, id, task);
    if r.slot >= 0 && r.table[r.slot].closer.Some? {
      OthersAreUsers(r.table[r.slot], r.table[r.slot].closer.value);
    }
  }

  predicate IsWaiting(t: seq<Slot>, slot: int) {
    0 <= slot < |t| && t[slot].closer.Some? && OthersPinned(t[slot], t[slot].closer.value)
  }

  function Done(t: seq<Slot>, slot: int): seq<Slot> {
    if 0 <= slot < |t| then t[slot := CLEAR] else t
  }

  class Table {
    const slots: array<Slot>

    constructor (n: nat)
      ensures slots.Length == n && fresh(slots) && forall k :: 0 <= k < n ==> slots[k] == CLEAR
    {
      slots := new Slot[n](_ => CLEAR);
    }

    method Lookup(id: nat) returns (k: int)
      ensures k == if id == 0 then -1 else Find(slots[..], id)
    {
      if id == 0 { return -1; }
      k := FirstWith(id);
    }

    method FirstWith(id: nat) returns (k: int)
      ensures k == Find(slots[..], id)
    {
      k := 0;
      while k < slots.Length
        invariant 0 <= k <= slots.Length
        invariant Find(slots[..], id) == if Find(slots[k..], id) < 0 then -1 else k + Find(slots[k..], id)
      {
        if slots[k].id == id { return; }
        assert slots[k..][1..] == slots[k + 1..];
        k := k + 1;
      }
      k := -1;
    }

    method Add(id: nat) returns (ok: bool)
      modifies slots
      ensures ok == Added(old(slots[..]), id).Some?
      ensures slots[..] == if ok then Added(old(slots[..]), id).value else old(slots[..])
    {
      var k := FirstWith(0);
      ok := id != 0 && k >= 0;
      if ok { slots[k] := CLEAR.(id := id, open := true); }
    }

    method Pin(id: nat, task: nat) returns (ok: bool)
      modifies slots
      ensures ok == PinnedIn(old(slots[..]), id, task).Some?
      ensures slots[..] == if ok then PinnedIn(old(slots[..]), id, task).value else old(slots[..])
    {
      var k := Lookup(id);
      if k < 0 || !slots[k].open { return false; }
      var s := Pinned(slots[k], task);
      if s.None? { return false; }
      slots[k] := s.value;
      ok := true;
    }

    method Unpin(id: nat, task: nat) returns (wake: bool, slot: int)
      modifies slots
      ensures var r := UnpinnedIn(old(slots[..]), id, task);
        slots[..] == r.table && wake == r.wake && slot == r.slot
    {
      slot := Lookup(id);
      if slot < 0 { return false, -1; }
      var s := Unpinned(slots[slot], task);
      slots[slot] := s;
      wake := s.closer.Some? && !OthersPinned(s, s.closer.value);
    }

    method Close(id: nat, task: nat) returns (slot: int)
      modifies slots
      ensures var r := ClosedIn(old(slots[..]), id, task); slots[..] == r.table && slot == r.slot
    {
      var k := Lookup(id);
      if k < 0 { return -1; }
      slots[k] := slots[k].(open := false);
      if !OthersPinned(slots[k], task) {
        slots[k] := CLEAR;
        return -1;
      }
      slots[k] := slots[k].(closer := Some(task));
      slot := k;
    }

    /** Whether that place is closed and any task but its closer still has a pin in it. */
    method Waiting(slot: int) returns (w: bool)
      ensures w == IsWaiting(slots[..], slot)
      ensures w ==> 0 <= slot < slots.Length && slots[slot].closer.Some?
      ensures 0 <= slot < slots.Length && slots[slot].closer.Some? ==>
        (w <==> exists t :: t != slots[slot].closer.value && PinsIn(slots[slot], t) > 0)
    {
      if 0 <= slot < slots.Length && slots[slot].closer.Some? {
        OthersAreUsers(slots[slot], slots[slot].closer.value);
      }
      w := 0 <= slot < slots.Length && slots[slot].closer.Some? && OthersPinned(slots[slot], slots[slot].closer.value);
    }

    method Release(slot: int)
      modifies slots
      ensures slots[..] == Done(old(slots[..]), slot)
    {
      if 0 <= slot < slots.Length { slots[slot] := CLEAR; }
    }
  }
}
