/** The app slot's flash: sector erases and the 16-byte head write are atomic, any other
    write may be cut after any byte, and every call may fail. */
module FlashSlot {
  import opened Bytes
  import opened ImageRules

  function Overlay(mem: seq<byte>, at: nat, data: seq<byte>): (r: seq<byte>)
    requires at + |data| <= |mem|
    ensures |r| == |mem|
    ensures forall i :: 0 <= i < |mem| ==> r[i] == if at <= i < at + |data| then data[i - at] else mem[i]
  {
    mem[..at] + data + mem[at + |data|..]
  }

  function Blank(n: nat): (z: seq<byte>)
    ensures |z| == n && forall i :: 0 <= i < n ==> z[i] == 0xFF
  {
    seq(n, _ => 0xFF)
  }

  /** The states a write of data passes through when its first n bytes get written. */
  ghost function Prefixes(mem: seq<byte>, at: nat, data: seq<byte>, n: nat): (r: seq<seq<byte>>)
    requires at + |data| <= |mem| && n <= |data|
    ensures |r| == n && forall k :: 0 <= k < n ==> r[k] == Overlay(mem, at, data[..k + 1])
  {
    seq(n, k requires 0 <= k < n => Overlay(mem, at, data[..k + 1]))
  }

  class Slot {
    const size: nat
    var mem: seq<byte>
    ghost var trail: seq<seq<byte>>  // every state the slot went through
    ghost var erases: seq<nat>       // the sectors of all erases asked for, in order
    ghost var faults: nat            // how many calls failed

    ghost predicate Valid()
      reads this
    {
      |mem| == size && Aligned(size) && size + SECTOR < U32
    }

    constructor (content: seq<byte>)
      requires Aligned(|content|) && |content| + SECTOR < U32
      ensures Valid() && mem == content && trail == [] && erases == [] && faults == 0
    {
      size := |content|;
      mem := content;
      trail, erases, faults := [], [], 0;
    }

    method EraseSector(at: nat) returns (ok: bool)
      requires Valid() && Aligned(at) && at + SECTOR <= size
      modifies this
      ensures Valid() && erases == old(erases) + [at / 4096] && faults == old(faults) + if ok then 0 else 1
      ensures ok ==> mem == Overlay(old(mem), at, Blank(SECTOR)) && trail == old(trail) + [mem]
      ensures !ok ==> mem == old(mem) && trail == old(trail)
    {
      ok := *;
      erases := erases + [at / 4096];
      if ok {
        mem := Overlay(mem, at, Blank(SECTOR));
        trail := trail + [mem];
      } else {
        faults := faults + 1;
      }
    }

    method Write(at: nat, data: seq<byte>) returns (ok: bool, ghost n: nat)
      requires Valid() && at + |data| <= size
      modifies this
      ensures Valid() && n <= |data| && (ok ==> n == |data|) && erases == old(erases)
      ensures faults == old(faults) + if ok then 0 else 1
      ensures mem == Overlay(old(mem), at, data[..n])
      ensures trail == old(trail) + Prefixes(old(mem), at, data, n)
    {
      ok := *;
      var done: nat := *;
      if ok || done > |data| { done := |data|; }
      n := done;
      trail := trail + Prefixes(mem, at, data, n);
      mem := Overlay(mem, at, data[..done]);
      faults := if ok then faults else faults + 1;
    }

    /** A sector's erase and the write after it, the first `at - start` bytes left blank. */
    method Rewrite(start: nat, at: nat, data: seq<byte>) returns (ok: bool, ghost n: nat)
      requires Valid() && Aligned(start) && start + SECTOR <= size && at + |data| <= size
      modifies this
      ensures Valid() && n <= |data| && (ok ==> n == |data|) && erases == old(erases) + [start / 4096]
      ensures faults == old(faults) + if ok then 0 else 1
      ensures var blank := Overlay(old(mem), start, Blank(SECTOR));
        || (!ok && mem == old(mem) && trail == old(trail))
        || (mem == Overlay(blank, at, data[..n]) && trail == old(trail) + ([blank] + Prefixes(blank, at, data, n)))
    {
      n := 0;
      ok := EraseSector(start);
      if ok {
        ok, n := Write(at, data);
      }
    }

    method WriteHead(data: seq<byte>) returns (ok: bool)
      requires Valid() && |data| == HEAD_HOLD <= size
      modifies this
      ensures Valid() && erases == old(erases) && faults == old(faults) + if ok then 0 else 1
      ensures ok ==> mem == Overlay(old(mem), 0, data) && trail == old(trail) + [mem]
      ensures !ok ==> mem == old(mem) && trail == old(trail)
    {
      ok := *;
      if ok {
        mem := Overlay(mem, 0, data);
        trail := trail + [mem];
      } else {
        faults := faults + 1;
      }
    }
  }
}
