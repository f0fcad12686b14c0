/** One image streamed into the app slot, a whole sector at a time, its first 16 bytes last. */
module ImageWriter {
  import opened Bytes
  import opened Options
  import opened OtaTrailer
  import opened ImageRules
  import opened FlashSlot
  import opened TailHold

  datatype Error = NoError | TooLarge | TooLong | BadHead | FlashError | TrailerCorrupt | EmptyImage
                 | SizeDiffers | HashDiffers | BadSignature | NotBootable

  /** How many sectors n bytes reach into. */
  function Reached(n: nat): nat {
    (n + 4095) / 4096
  }

  /** The sector boundary at or after n. */
  function Up(n: nat): (u: nat)
    ensures n <= u < n + SECTOR && Aligned(u)
    ensures Aligned(n) ==> u == n
  {
    Reached(n) * 4096
  }

  lemma NextSector(at: nat, end: nat)
    requires Aligned(at) && at < end <= at + SECTOR
    ensures Up(end) == at + SECTOR && Aligned(at + SECTOR)
    ensures Sectors(Reached(at)) + [at / 4096] == Sectors(Reached(end))
  {
    assert Reached(end) == at / 4096 + 1 && Reached(at) == at / 4096;
  }

  /** The sectors 0, 1, .. n - 1, each once. */
  function Sectors(n: nat): (s: seq<nat>)
    ensures |s| == n && forall i :: 0 <= i < n ==> s[i] == i
  {
    seq(n, i => i)
  }

  /** What a power cut may leave from the first erase on: a blank head, or a whole image that passed every check. */
  predicate CrashSafe(mem: seq<byte>, checked: Option<seq<byte>>) {
    || (|mem| >= HEAD_HOLD && mem[..HEAD_HOLD] == Blank(HEAD_HOLD))
    || (checked.Some? && checked.value <= mem)
  }

  /** The slot after those states: as it was while there is none, that is before the first erase that worked. */
  predicate LeftSafe(states: seq<seq<byte>>, mem: seq<byte>, base: seq<byte>, checked: Option<seq<byte>>) {
    if states == [] then mem == base else CrashSafe(mem, checked)
  }

  /** mem holds image's first `at` bytes but for the head, blank, and is `base` past their last sector. */
  predicate Holds(mem: seq<byte>, base: seq<byte>, image: seq<byte>, at: nat) {
    && |mem| == |base| && at <= |image| && Up(at) <= |mem|
    && (at > 0 ==>
         HEAD_HOLD <= at && mem[..HEAD_HOLD] == Blank(HEAD_HOLD) && mem[HEAD_HOLD..at] == image[HEAD_HOLD..at])
    && mem[Up(at)..] == base[Up(at)..]
  }

  /** Holds, byte by byte. */
  predicate HoldsAt(mem: seq<byte>, base: seq<byte>, image: seq<byte>, at: nat) {
    && |mem| == |base| && at <= |image| && Up(at) <= |mem|
    && (at > 0 ==> HEAD_HOLD <= at && (forall i :: 0 <= i < HEAD_HOLD ==> mem[i] == 0xFF))
    && (at > 0 ==> forall i :: HEAD_HOLD <= i < at ==> mem[i] == image[i])
    && (forall i :: Up(at) <= i < |mem| ==> mem[i] == base[i])
  }

  lemma HoldsPointwise(mem: seq<byte>, base: seq<byte>, image: seq<byte>, at: nat)
    ensures Holds(mem, base, image, at) ==> HoldsAt(mem, base, image, at)
  {
    hide Up;
    if Holds(mem, base, image, at) {
      if at > 0 {
        forall i | 0 <= i < HEAD_HOLD ensures mem[i] == 0xFF { assert mem[i] == mem[..HEAD_HOLD][i]; }
        forall i | HEAD_HOLD <= i < at ensures mem[i] == image[i] {
          assert mem[i] == mem[HEAD_HOLD..at][i - HEAD_HOLD] == image[HEAD_HOLD..at][i - HEAD_HOLD];
        }
      }
      forall i | Up(at) <= i < |mem| ensures mem[i] == base[i] {
        assert mem[i] == mem[Up(at)..][i - Up(at)] == base[Up(at)..][i - Up(at)];
      }
    }
  }

  lemma PointwiseHolds(mem: seq<byte>, base: seq<byte>, image: seq<byte>, at: nat)
    requires HoldsAt(mem, base, image, at)
    ensures Holds(mem, base, image, at)
  {
    hide Up;
    if at > 0 {
      assert mem[..HEAD_HOLD] == Blank(HEAD_HOLD);
      assert mem[HEAD_HOLD..at] == image[HEAD_HOLD..at];
    }
    assert mem[Up(at)..] == base[Up(at)..];
  }

  lemma BlankHead(mem: seq<byte>)
    requires |mem| >= HEAD_HOLD && forall i :: 0 <= i < HEAD_HOLD ==> mem[i] == 0xFF
    ensures mem[..HEAD_HOLD] == Blank(HEAD_HOLD)
  {
  }

  /** One sector's flush: the slot after the erase and with n of the sector's bytes written, the
      head's left out. */
  lemma FlushHolds(mem: seq<byte>, base: seq<byte>, image: seq<byte>, at: nat, n: nat)
    requires Holds(mem, base, image, at) && Aligned(at)
    requires at < |image| <= at + SECTOR <= |mem|
    requires HEAD_HOLD <= |image|
    ensures var blank := Overlay(mem, at, Blank(SECTOR));
      var skip := if at == 0 then HEAD_HOLD else at;
      && blank[..HEAD_HOLD] == Blank(HEAD_HOLD)
      && (n <= |image| - skip ==>
           && skip + n <= |mem|
           && Overlay(blank, skip, image[skip..skip + n])[..HEAD_HOLD] == Blank(HEAD_HOLD))
      && Holds(Overlay(blank, skip, image[skip..]), base, image, |image|)
  {
    NextSector(at, |image|);
    HoldsPointwise(mem, base, image, at);
    hide Up, Aligned, Reached, Holds;
    var blank := Overlay(mem, at, Blank(SECTOR));
    var skip := if at == 0 then HEAD_HOLD else at;
    BlankHead(blank);
    if n <= |image| - skip { BlankHead(Overlay(blank, skip, image[skip..skip + n])); }
    assert HoldsAt(Overlay(blank, skip, image[skip..]), base, image, |image|);
    PointwiseHolds(Overlay(blank, skip, image[skip..]), base, image, |image|);
  }

  ghost predicate HeadBlank(states: seq<seq<byte>>) {
    forall st :: st in states ==> |st| >= HEAD_HOLD && st[..HEAD_HOLD] == Blank(HEAD_HOLD)
  }

  /** Each state that flush passes through has a blank head. */
  lemma FlushPasses(mem: seq<byte>, base: seq<byte>, image: seq<byte>, at: nat, n: nat)
    requires Holds(mem, base, image, at) && Aligned(at)
    requires at < |image| <= at + SECTOR <= |mem|
    requires HEAD_HOLD <= |image|
    requires n <= |image| - (if at == 0 then HEAD_HOLD else at)
    ensures var blank := Overlay(mem, at, Blank(SECTOR));
      var skip := if at == 0 then HEAD_HOLD else at;
      HeadBlank([blank] + Prefixes(blank, skip, image[skip..], n)) &&
      HeadBlank([Overlay(blank, skip, image[skip..][..n])])
  {
    var blank := Overlay(mem, at, Blank(SECTOR));
    var skip := if at == 0 then HEAD_HOLD else at;
    FlushHolds(mem, base, image, at, n);
    assert image[skip..][..n] == image[skip..skip + n];
    forall k | 0 <= k < n
      ensures Prefixes(blank, skip, image[skip..], n)[k][..HEAD_HOLD] == Blank(HEAD_HOLD)
    {
      FlushHolds(mem, base, image, at, k + 1);
      assert image[skip..][..k + 1] == image[skip..skip + (k + 1)];
    }
  }

  /** What Rewrite leaves of a sector's flush, whether it went through or not. */
  lemma Burnt(mem: seq<byte>, trail: seq<seq<byte>>, mem': seq<byte>, trail': seq<seq<byte>>, base: seq<byte>,
              image: seq<byte>, at: nat, n: nat, ok: bool)
    requires Holds(mem, base, image, at) && Aligned(at) && HEAD_HOLD <= |image|
    requires at < |image| <= at + SECTOR <= |mem|
    requires n <= |image| - (if at == 0 then HEAD_HOLD else at)
    requires ok ==> n == |image| - (if at == 0 then HEAD_HOLD else at)
    requires var blank, skip := Overlay(mem, at, Blank(SECTOR)), if at == 0 then HEAD_HOLD else at;
      || (!ok && mem' == mem && trail' == trail)
      || (mem' == Overlay(blank, skip, image[skip..][..n]) &&
          trail' == trail + ([blank] + Prefixes(blank, skip, image[skip..], n)))
    ensures trail <= trail' && HeadBlank(trail'[|trail|..])
    ensures if trail'[|trail|..] == [] then mem' == mem else HeadBlank([mem'])
    ensures ok ==> Holds(mem', base, image, |image|)
  {
    var skip := if at == 0 then HEAD_HOLD else at;
    FlushPasses(mem, base, image, at, n);
    FlushHolds(mem, base, image, at, n);
    assert ok ==> image[skip..][..n] == image[skip..];
    hide Holds, Aligned, Overlay, Prefixes, Blank;
  }

  /** FlashSteps::step: up to the next sector boundary. */
  function Step(offset: nat, avail: nat): nat {
    if avail < 4096 - offset % 4096 then avail else 4096 - offset % 4096
  }

  lemma StepIs(offset: nat, fill: nat, avail: nat)
    requires fill <= offset && Aligned(offset - fill) && fill < SECTOR
    ensures Step(offset, avail) == if avail < SECTOR - fill then avail else SECTOR - fill
    ensures Aligned(offset + (SECTOR - fill))
  {
    assert offset % 4096 == fill;
  }

  lemma SectorFits(at: nat, size: nat)
    requires Aligned(at) && Aligned(size) && at < size
    ensures at + SECTOR <= size
  {
  }

  lemma FirstOfMore(image: seq<byte>, at: nat)
    requires at <= |image| && Aligned(at)
    ensures at > 0 ==> FirstSector(image[..at]) == FirstSector(image)
  {
    if at > 0 {
      assert image[..at][..SECTOR] == image[..SECTOR];
    }
  }

  lemma ProgressTells(rules: Rules, started: bool, touched: bool, hashed: seq<byte>, erased: seq<nat>, mem: seq<byte>,
                      base: seq<byte>, first: seq<byte>, taken: seq<byte>)
    requires Progress(rules, started, touched, hashed, erased, mem, base, first, taken, |taken|)
    ensures hashed == taken && started == touched == (|taken| > 0) && (started ==> HeadOk(rules, FirstSector(taken)))
    ensures erased == Sectors(Reached(|taken|))
  {
    assert taken[..|taken|] == taken;
  }

  lemma MoreTaken(rules: Rules, started: bool, touched: bool, hashed: seq<byte>, erased: seq<nat>, mem: seq<byte>,
                  base: seq<byte>, first: seq<byte>, taken: seq<byte>, more: seq<byte>, at: nat)
    requires Progress(rules, started, touched, hashed, erased, mem, base, first, taken, at)
    ensures Progress(rules, started, touched, hashed, erased, mem, base, first, taken + more, at)
  {
    var all := taken + more;
    assert all[..at] == taken[..at];
    assert at > 0 ==>
      at >= HEAD_HOLD && all[HEAD_HOLD..at] == taken[HEAD_HOLD..at] && all[..HEAD_HOLD] == taken[..HEAD_HOLD];
  }

  lemma HeadIsLong(rules: Rules, image: seq<byte>)
    requires HeadOk(rules, FirstSector(image))
    ensures |image| >= HEAD_NEEDED
  {
  }

  /** What the writer's fields say with the image's first `at` bytes in the flash. */
  predicate Progress(rules: Rules, started: bool, touched: bool, hashed: seq<byte>, erased: seq<nat>,
                     mem: seq<byte>, base: seq<byte>, first: seq<byte>, taken: seq<byte>, at: nat) {
    && at <= |taken| && hashed == taken[..at]
    && started == (at > 0) && touched == (at > 0)
    && Holds(mem, base, taken, at)
    && (at > 0 ==> HeadOk(rules, FirstSector(taken[..at])) && first == taken[..HEAD_HOLD])
    && erased == Sectors(Reached(at))
  }

  /** The slot's states since begin: each has a blank head or is a checked image, and an untouched slot has none. */
  ghost predicate SafeHistory(states: seq<seq<byte>>, mem: seq<byte>, base: seq<byte>, checked: Option<seq<byte>>,
                              touched: bool) {
    && (forall st :: st in states ==> CrashSafe(st, checked))
    && LeftSafe(states, mem, base, checked)
    && (!touched && checked.None? ==> states == [])
  }

  /** A sector's flush takes the progress on to the image's end. */
  lemma ProgressMade(rules: Rules, started: bool, touched: bool, hashed: seq<byte>, erased: seq<nat>, mem: seq<byte>,
                     base: seq<byte>, first: seq<byte>, taken: seq<byte>, at: nat, mem': seq<byte>, first': seq<byte>)
    requires Progress(rules, started, touched, hashed, erased, mem, base, first, taken, at)
    requires Aligned(at) && at < |taken| <= at + SECTOR
    requires HeadOk(rules, FirstSector(taken))
    requires Holds(mem', base, taken, |taken|)
    requires |taken| >= HEAD_HOLD && first' == if at == 0 then taken[..HEAD_HOLD] else first
    ensures Progress(rules, true, true, hashed + taken[at..], erased + [at / 4096], mem', base, first', taken, |taken|)
  {
    NextSector(at, |taken|);
    assert taken[..|taken|] == taken;
    assert hashed + taken[at..] == taken;
  }

  /** Blank-headed states added to a safe history keep it safe. */
  lemma HistoryGrows(states: seq<seq<byte>>, more: seq<seq<byte>>, mem: seq<byte>, mem': seq<byte>, base: seq<byte>,
                     checked: Option<seq<byte>>, touched: bool)
    requires SafeHistory(states, mem, base, checked, touched)
    requires HeadBlank(more) && if more == [] then mem' == mem else HeadBlank([mem'])
    ensures SafeHistory(states + more, mem', base, checked, true)
  {
    assert mem' in [mem'];
  }

  /** mem holds the whole image, and is `base` past its last sector. */
  predicate Installed(mem: seq<byte>, base: seq<byte>, image: seq<byte>) {
    && image <= mem && |mem| == |base| && Up(|image|) <= |mem|
    && mem[Up(|image|)..] == base[Up(|image|)..]
  }

  /** The head over its blank: now the slot holds the whole image. */
  lemma HeadGoesIn(mem: seq<byte>, base: seq<byte>, image: seq<byte>)
    requires Holds(mem, base, image, |image|) && |image| >= HEAD_HOLD
    ensures Installed(Overlay(mem, 0, image[..HEAD_HOLD]), base, image)
  {
    hide Up;
    var whole := Overlay(mem, 0, image[..HEAD_HOLD]);
    forall i | 0 <= i < |image| ensures whole[i] == image[i] {
      if i >= HEAD_HOLD {
        assert mem[i] == mem[HEAD_HOLD..|image|][i - HEAD_HOLD];
      }
    }
    assert whole[Up(|image|)..] == mem[Up(|image|)..];
  }

  class Writer {
    const slot: Slot
    const rules: Rules
    const hold: Hold
    const buf: array<byte>
    const first: array<byte>
    var want: Wanted
    var started: bool
    var touched: bool
    var image: nat   // image bytes taken, buffered or written
    var fill: nat    // of them in buf
    var hashed: seq<byte>
    var error: Error
    ghost var fed: seq<byte>      // the file so far
    ghost var taken: seq<byte>    // its image bytes so far
    ghost var base: seq<byte>     // the slot before this image
    ghost var from: nat           // where this image's part of the slot's trail starts
    ghost var since: nat          // where its part of the slot's erases starts
    ghost var calm: nat           // the slot's faults before this image
    ghost var checked: Option<seq<byte>>  // the image, once it passed every check

    ghost predicate Fixed()
      reads this, slot, hold
    {
      && slot.Valid() && hold.Valid()
      && buf.Length == SECTOR && first.Length == HEAD_HOLD
      && buf != first && buf != hold.buf && first != hold.buf
      && |base| == slot.size && from <= |slot.trail| && since <= |slot.erases|
      && calm <= slot.faults && (error.FlashError? ==> calm < slot.faults)
    }

    constructor (s: Slot, r: Rules)
      requires s.Valid()
      ensures slot == s && rules == r && Fixed() && fresh(hold) && fresh(hold.buf) && fresh(buf) && fresh(first)
      ensures !touched
    {
      slot, rules := s, r;
      hold := new Hold();
      buf := new byte[SECTOR];
      first := new byte[HEAD_HOLD];
      want := Wanted(0, None, []);
      started, touched, image, fill, hashed, error := false, false, 0, 0, [], NoError;
      fed, taken, base, from, since, calm, checked := [], [], s.mem, |s.trail|, |s.erases|, s.faults, None;
    }

    ghost predicate History()
      requires Fixed()
      reads this, slot, hold
    {
      SafeHistory(slot.trail[from..], slot.mem, base, checked, touched)
    }

    ghost predicate Written(at: nat)
      reads this, slot, first
    {
      since <= |slot.erases| &&
      Progress(rules, started, touched, hashed, Erased(), slot.mem, base, first[..], taken, at)
    }

    /** The sectors erased for this image, in order. */
    ghost function Erased(): seq<nat>
      requires since <= |slot.erases|
      reads this, slot
    {
      slot.erases[since..]
    }

    ghost predicate Buffered()
      reads this, buf
    {
      && image == |taken| && fill <= image && fill <= SECTOR <= buf.Length
      && buf[..fill] == taken[image - fill..]
    }

    /** Under way: the bytes taken so far are in the flash or the buffer. */
    ghost predicate Streaming()
      reads this, slot, hold, buf, first
    {
      && Fixed() && History() && error.NoError? && checked.None?
      && Buffered() && Aligned(image - fill) && fill < SECTOR
      && Written(image - fill)
      && image <= slot.size && (want.size > 0 ==> image <= want.size)
    }

    ghost predicate Live()
      reads this, slot, hold, hold.buf, buf, first
    {
      && Streaming()
      && taken + hold.Held() == fed
      && hold.n == if |fed| < TRAILER then |fed| else TRAILER
    }

    /** The image's head, kept for the last write. */
    method KeepHead(sector: seq<byte>)
      requires first.Length == HEAD_HOLD <= |sector|
      modifies first
      ensures first[..] == sector[..HEAD_HOLD]
    {
      forall i | 0 <= i < HEAD_HOLD { first[i] := sector[i]; }
    }

    /** The buffered sector into the flash: its erase, then all of it but the image's head. */
    method Burn(at: nat) returns (ok: bool)
      requires slot.Valid() && buf.Length == SECTOR && first.Length == HEAD_HOLD && buf != first
      requires Buffered() && at == image - fill < image && Aligned(at) && image <= slot.size
      requires Holds(slot.mem, base, taken, at) && HEAD_NEEDED <= image
      modifies slot, first
      ensures slot.Valid() && old(slot.trail) <= slot.trail && slot.erases == old(slot.erases) + [at / 4096]
      ensures HeadBlank(slot.trail[|old(slot.trail)|..])
      ensures first[..] == if at == 0 then taken[..HEAD_HOLD] else old(first[..])
      ensures ok ==> Holds(slot.mem, base, taken, image)
      ensures if slot.trail[|old(slot.trail)|..] == [] then slot.mem == old(slot.mem) else HeadBlank([slot.mem])
      ensures slot.faults == old(slot.faults) + if ok then 0 else 1
    {
      hide *;
      SectorTells(at);
      ghost var mem, trail := slot.mem, slot.trail;
      var skip := if at == 0 then HEAD_HOLD else at;
      var sector := buf[..fill];
      if at == 0 { KeepHead(sector); }
      ghost var n: nat;
      ok, n := slot.Rewrite(at, skip, sector[skip - at..]);
      Burnt(mem, trail, slot.mem, slot.trail, base, taken, at, n, ok);
    }

    /** The buffered sector is the image's end, and fits the slot. */
    lemma SectorTells(at: nat)
      requires slot.Valid() && buf.Length == SECTOR && Buffered() && at == image - fill < image && Aligned(at)
      requires image <= slot.size && HEAD_NEEDED <= image && Holds(slot.mem, base, taken, at)
      ensures var skip := if at == 0 then HEAD_HOLD else at;
        && at < image == |taken| <= at + SECTOR <= |slot.mem| == slot.size && HEAD_HOLD <= fill + at
        && skip - at <= fill <= buf.Length && buf[..fill][skip - at..] == taken[skip..] && HEAD_HOLD > 0
        && (at == 0 ==> buf[..fill] == taken)
    {
      SectorFits(at, slot.size);
    }

    /** Burn, with what it means for the slot's history. */
    method BurnSafely(at: nat) returns (ok: bool)
      requires slot.Valid() && buf.Length == SECTOR && first.Length == HEAD_HOLD && buf != first
      requires Buffered() && at == image - fill < image && Aligned(at) && image <= slot.size
      requires Holds(slot.mem, base, taken, at) && HEAD_NEEDED <= image
      requires from <= |slot.trail| && SafeHistory(slot.trail[from..], slot.mem, base, checked, touched)
      modifies slot, first
      ensures slot.Valid() && from <= |slot.trail| && slot.erases == old(slot.erases) + [at / 4096]
      ensures SafeHistory(slot.trail[from..], slot.mem, base, checked, true)
      ensures slot.faults == old(slot.faults) + if ok then 0 else 1
      ensures ok ==> first[..] == if at == 0 then taken[..HEAD_HOLD] else old(first[..])
      ensures ok ==> Holds(slot.mem, base, taken, image)
    {
      hide Aligned, Holds, SafeHistory, HeadBlank;
      ghost var trail, mem := slot.trail, slot.mem;
      ok := Burn(at);
      assert slot.trail[from..] == trail[from..] + slot.trail[|trail|..];
      HistoryGrows(trail[from..], slot.trail[|trail|..], mem, slot.mem, base, checked, touched);
    }

    /** The buffered sector goes into the flash, its image's head being good. */
    method FlushSector() returns (ok: bool)
      requires Fixed() && History() && error.NoError?
      requires Buffered() && Aligned(image - fill) && Written(image - fill) && image <= slot.size
      requires fill > 0 && HeadOk(rules, FirstSector(taken))
      modifies this`started, this`touched, this`fill, this`hashed, this`error, slot, first
      ensures Fixed() && History()
      ensures ok ==> error.NoError? && fill == 0 && Written(image)
      ensures !ok ==> error.FlashError?
    {
      hide *;
      FixedTells();
      BufferedTells();
      ghost var mem0, first0, erased := slot.mem, first[..], Erased();
      ErasedIs();
      var at := image - fill;
      SectorDue(at);
      ok := BurnSafely(at);
      ErasedOne(erased, at);
      FixedIf();
      if ok {
        ProgressMade(rules, started, touched, hashed, erased, mem0, base, first0, taken, at, slot.mem, first[..]);
      }
      NoteSector(ok);
    }

    /** What the sector's flush needs and starts from. */
    lemma SectorDue(at: nat)
      requires Fixed() && History() && Buffered() && at == image - fill && Aligned(at) && Written(at) && fill > 0
      requires HeadOk(rules, FirstSector(taken))
      ensures slot.Valid() && buf.Length == SECTOR && first.Length == HEAD_HOLD && buf != first
      ensures Holds(slot.mem, base, taken, at) && HEAD_HOLD <= HEAD_NEEDED <= image && from <= |slot.trail|
      ensures at < |taken| == image <= at + SECTOR && buf[..fill] == taken[at..] && fill <= buf.Length
      ensures SafeHistory(slot.trail[from..], slot.mem, base, checked, touched)
      ensures Progress(rules, started, touched, hashed, Erased(), slot.mem, base, first[..], taken, at)
    {
      HeadIsLong(rules, taken);
      hide SafeHistory, HeadOk, FirstSector, Aligned, Holds;
    }

    lemma FixedTells()
      requires Fixed()
      ensures slot.Valid() && hold.Valid() && buf.Length == SECTOR && first.Length == HEAD_HOLD
      ensures buf != first && buf != hold.buf && first != hold.buf && |base| == slot.size
      ensures from <= |slot.trail| && since <= |slot.erases| && calm <= slot.faults
    {
    }

    lemma FixedIf()
      requires slot.Valid() && hold.Valid() && buf.Length == SECTOR && first.Length == HEAD_HOLD
      requires buf != first && buf != hold.buf && first != hold.buf && |base| == slot.size
      requires from <= |slot.trail| && since <= |slot.erases| && calm <= slot.faults && !error.FlashError?
      ensures Fixed()
    {
    }

    lemma ErasedIs()
      requires since <= |slot.erases|
      ensures Erased() == slot.erases[since..]
    {
    }

    lemma ErasedOne(erased: seq<nat>, at: nat)
      requires since <= |slot.erases| - 1 && slot.erases[since..|slot.erases| - 1] == erased
      requires slot.erases[|slot.erases| - 1] == at / 4096
      ensures Erased() == erased + [at / 4096]
    {
    }

    /** The fields after a sector's flush. */
    method NoteSector(ok: bool)
      requires Fixed() && error.NoError? && SafeHistory(slot.trail[from..], slot.mem, base, checked, true)
      requires fill <= buf.Length
      requires ok ==>
        Progress(rules, true, true, hashed + buf[..fill], Erased(), slot.mem, base, first[..], taken, image)
      requires !ok ==> slot.faults > calm
      modifies this`started, this`touched, this`fill, this`hashed, this`error
      ensures Fixed() && History()
      ensures ok ==> error.NoError? && fill == 0 && Written(image)
      ensures !ok ==> error.FlashError?
    {
      hide SafeHistory, Progress;
      if ok {
        hashed, fill := hashed + buf[..fill], 0;
      } else {
        error := FlashError;
      }
      started, touched := true, true;
    }

    /** Before the first flush all of the image is in the buffer; after it the head is known to be good. */
    lemma HeadTells(at: nat)
      requires Written(at) && Buffered() && at == image - fill && fill > 0 && Aligned(at)
      ensures started ==> HeadOk(rules, FirstSector(taken))
      ensures !started ==> buf[..fill] == taken == FirstSector(taken)
    {
      hide SafeHistory, Holds, Reached, Up, Sectors, HeadOk, Aligned;
      if started { FirstOfMore(taken, at); }
    }

    method Flush() returns (ok: bool)
      requires Fixed() && History() && error.NoError? && checked.None?
      requires Buffered() && Aligned(image - fill) && Written(image - fill) && image <= slot.size
      modifies this`started, this`touched, this`fill, this`hashed, this`error, slot, first
      ensures Fixed() && History()
      ensures ok ==> error.NoError? && fill == 0 && Written(image)
      ensures !ok ==> error.FlashError? || (error.BadHead? && !HeadOk(rules, FirstSector(taken)))
    {
      hide SafeHistory, Progress, HeadOk, FirstSector, Aligned;
      if fill == 0 { return true; }
      HeadTells(image - fill);
      if !started && !HeadOk(rules, buf[..fill]) {
        error := BadHead;
        return false;
      }
      ok := FlushSector();
    }

    lemma TailGrows(t: seq<byte>, p: seq<byte>, at: nat)
      requires at <= |t|
      ensures (t + p)[at..] == t[at..] + p
    {
    }

    method Buffer(p: seq<byte>)
      requires fill + |p| <= buf.Length
      modifies buf
      ensures buf[..fill + |p|] == old(buf[..fill]) + p
    {
      ghost var was := buf[..fill];
      forall j | 0 <= j < |p| { buf[fill + j] := p[j]; }
      assert buf[..fill] == was;
    }

    /** More image bytes are taken, and are in the buffer. */
    method NoteTaken(p: seq<byte>)
      requires Fixed() && History() && fill <= image && Written(image - fill)
      modifies this`fill, this`image, this`taken
      ensures Fixed() && History() && fill <= image && Written(image - fill)
      ensures image - fill == old(image - fill) && fill == old(fill) + |p| && taken == old(taken) + p
    {
      hide SafeHistory, Progress;
      MoreTaken(rules, started, touched, hashed, Erased(), slot.mem, base, first[..], taken, p, image - fill);
      taken := taken + p;
      fill, image := fill + |p|, image + |p|;
    }

    lemma BufferedTells()
      requires Buffered()
      ensures image == |taken| && fill <= image && fill <= SECTOR <= buf.Length && buf[..fill] == taken[image - fill..]
    {
    }

    lemma BufferedIf()
      requires image == |taken| && fill <= image && fill <= SECTOR <= buf.Length && buf[..fill] == taken[image - fill..]
      ensures Buffered()
    {
    }

    /** k more image bytes into the buffer. */
    method Fill(p: seq<byte>)
      requires Streaming() && fill + |p| <= SECTOR && image + |p| <= slot.size
      modifies this`fill, this`image, this`taken, buf
      ensures Fixed() && History() && Buffered() && Written(image - fill)
      ensures image - fill == old(image - fill) && fill == old(fill) + |p| && taken == old(taken) + p
    {
      hide *;
      StreamingTells();
      BufferedTells();
      TailGrows(taken, p, image - fill);
      OwnBuffers();
      Buffer(p);
      NoteTaken(p);
      BufferedIf();
    }

    lemma OwnBuffers()
      requires Fixed()
      ensures buf != first && buf != hold.buf
    {
    }

    /** One step's bytes into the buffer, and a full buffer into the flash. */
    method TakeStep(p: seq<byte>) returns (ok: bool)
      requires Streaming() && fill + |p| <= SECTOR
      requires image + |p| <= slot.size && (want.size > 0 ==> image + |p| <= want.size)
      modifies this`started, this`touched, this`fill, this`hashed, this`error, this`image, this`taken
      modifies slot, first, buf
      ensures Fixed() && History() && taken == old(taken) + p
      ensures ok ==> Streaming()
      ensures !ok ==> error.FlashError? || (error.BadHead? && |taken| >= SECTOR && !HeadOk(rules, FirstSector(taken)))
    {
      hide SafeHistory, Progress, HeadOk, FirstSector;
      Fill(p);
      ok := true;
      if fill == SECTOR {
        ok := Flush();
      }
    }

    /** Image bytes that fit, a step at a time. */
    method TakeAll(p: seq<byte>) returns (ok: bool)
      requires Streaming()
      requires image + |p| <= slot.size && (want.size > 0 ==> image + |p| <= want.size)
      modifies this`started, this`touched, this`fill, this`hashed, this`error, this`image, this`taken
      modifies slot, first, buf
      ensures Fixed() && History()
      ensures ok ==> Streaming() && taken == old(taken) + p
      ensures !ok ==>
        || error.FlashError?
        || (error.BadHead? && taken <= old(taken) + p && |taken| >= SECTOR && !HeadOk(rules, FirstSector(taken)))
    {
      hide SafeHistory, Progress, HeadOk, FirstSector, Aligned;
      ghost var all := taken + p;
      var i := 0;
      while i < |p|
        invariant 0 <= i <= |p|
        invariant Streaming() && taken + p[i..] == all
      {
        assert Aligned(image - fill) && fill < SECTOR;
        StepIs(image, fill, |p| - i);
        var k := Step(image, |p| - i);
        ghost var before := taken;
        ok := TakeStep(p[i..i + k]);
        assert taken + p[i + k..] == before + p[i..];
        i := i + k;
        if !ok { return; }
      }
      assert taken + p[i..] == taken;
      ok := true;
    }

    /** Image bytes into the buffer, and the flash as its sectors fill. */
    method Take(p: seq<byte>) returns (ok: bool)
      requires Streaming()
      modifies this`started, this`touched, this`fill, this`hashed, this`error, this`image, this`taken
      modifies slot, first, buf
      ensures Fixed() && History()
      ensures ok ==> Streaming() && taken == old(taken) + p
      ensures !ok ==>
        error.FlashError? || (!error.NoError? && !error.NotBootable? && Unfit(rules, slot.size, want, old(taken) + p))
    {
      if image + |p| > slot.size {
        error := TooLarge;
        return false;
      }
      if want.size > 0 && image + |p| > want.size {
        error := TooLong;
        return false;
      }
      hide SafeHistory, Progress, HeadOk, FirstSector, Aligned, Unfit;
      ghost var all := taken + p;
      ok := TakeAll(p);
      if !ok && error.BadHead? { BadStart(rules, slot.size, want, taken, all); }
    }

    /** What the hold lets go: some of its own bytes, then some of the new ones. */
    method Pass(a: seq<byte>, b: seq<byte>) returns (ok: bool)
      requires Streaming()
      modifies this`started, this`touched, this`fill, this`hashed, this`error, this`image, this`taken
      modifies slot, first, buf
      ensures Fixed() && History()
      ensures ok ==> Streaming() && taken == old(taken) + a + b
      ensures !ok ==>
        || error.FlashError?
        || (!error.NoError? && !error.NotBootable? && Unfit(rules, slot.size, want, old(taken) + a + b))
    {
      assert Fixed() && History();
      hide Writer.Fixed, Writer.History, Writer.Streaming, Unfit;
      ok := true;
      if |a| > 0 {
        ok := Take(a);
        if !ok && !error.FlashError? { UnfitGrows(rules, slot.size, want, old(taken) + a, b); }
      }
      if ok && |b| > 0 {
        ok := Take(b);
      }
      assert a == [] ==> old(taken) + a == old(taken);
      assert b == [] ==> old(taken) + a + b == old(taken) + a;
    }

    /** Ready for a file: no error so far, or one that stays. */
    ghost predicate Valid()
      reads this, slot, hold, hold.buf, buf, first
    {
      Fixed() && History() && (error.NoError? ==> Live())
    }

    lemma Split(held: seq<byte>, p: seq<byte>, fromHeld: nat, fromIn: nat)
      requires fed == taken + held && fromHeld <= |held| && fromIn <= |p|
      requires fromIn == 0 || fromHeld == |held|
      ensures fed + p == (taken + held[..fromHeld] + p[..fromIn]) + (held[fromHeld..] + p[fromIn..])
    {
    }

    /** File bytes; the last 128 stay in the hold. An early refusal dooms every way to go on. */
    method Feed(p: seq<byte>) returns (ok: bool)
      requires Valid()
      modifies this`started, this`touched, this`fill, this`hashed, this`error, this`image, this`taken
      modifies this`fed, slot, first, buf, hold, hold.buf
      ensures Valid() && ok == error.NoError?
      ensures fed == if old(error).NoError? then old(fed) + p else old(fed)
      ensures (error.FlashError? ==> slot.faults > calm) && (old(error).NoError? ==> !error.NotBootable?)
      ensures old(error).NoError? && !ok ==>
        error.FlashError? || forall rest :: !Accepted(rules, slot.size, want, fed + rest)
    {
      hide SafeHistory, Progress, HeadOk, Aligned, Unfit, Accepted;
      if !error.NoError? { return false; }
      var held := hold.Held();
      var out := if hold.n + |p| > TRAILER then hold.n + |p| - TRAILER else 0;
      var fromHeld := if out < hold.n then out else hold.n;
      var fromIn := out - fromHeld;
      ghost var t := taken + held[..fromHeld] + p[..fromIn];
      ghost var tail := held[fromHeld..] + p[fromIn..];
      Split(held, p, fromHeld, fromIn);
      fed := fed + p;
      if out == 0 {
        hold.Append(p);
        return true;
      }
      ok := Pass(held[..fromHeld], p[..fromIn]);
      if ok {
        hold.Shift(p, fromHeld, fromIn);
      } else if !error.FlashError? {
        UnfitIsHopeless(rules, slot.size, want, fed, t);
      }
    }

    /** The image's last checks, in their order. */
    method Judge(signed: bool, own: seq<byte>) returns (ok: bool)
      requires error.NoError? && first.Length == HEAD_HOLD && hashed == taken && image == |taken|
      requires signed == (own != []) && image <= slot.size
      requires started == (image > 0) && (started ==> HeadOk(rules, FirstSector(taken)))
      modifies this`error
      ensures ok == error.NoError? == ImageOk(rules, slot.size, want, taken, own)
      ensures !error.FlashError? && !error.NotBootable?
    {
      hide HeadOk, FirstSector;
      if !started {
        error := EmptyImage;
        return false;
      }
      if !SizeAsAnnounced(want.size, image, signed) {
        error := SizeDiffers;
        return false;
      }
      var hash := rules.sha(hashed);
      if want.sha.Some? && hash != want.sha.value {
        error := HashDiffers;
        return false;
      }
      var sig := if want.sig != [] then want.sig else own;
      if Refused(rules, hash, sig) {
        error := BadSignature;
        return false;
      }
      ok := true;
    }

    /** With the head over its blank the slot holds the image. */
    lemma SealTells()
      requires Fixed() && image == |taken| && image <= slot.size && Written(image) && started
      ensures HEAD_HOLD <= slot.size && |first[..]| == HEAD_HOLD
      ensures var mem := Overlay(slot.mem, 0, first[..]); Installed(mem, base, taken) && taken <= mem
    {
      assert first[..] == taken[..HEAD_HOLD] && Holds(slot.mem, base, taken, image);
      HeadGoesIn(slot.mem, base, taken);
      hide HeadOk, Holds, FirstSector, Up, Reached, Sectors, Overlay, Blank;
    }

    /** The head goes in: from here the slot may boot. */
    method Seal() returns (ok: bool)
      requires Fixed() && History() && error.NoError? && checked.None?
      requires image == |taken| && image <= slot.size && Written(image) && started
      modifies this`error, this`touched, this`checked, slot
      ensures Fixed() && History() && checked == Some(taken) && slot.erases == old(slot.erases)
      ensures ok ==> error.NoError? && !touched && rules.bootable(slot.mem)
      ensures ok ==> Installed(slot.mem, base, taken)
      ensures !ok ==> error.FlashError? || (error.NotBootable? && !rules.bootable(slot.mem))
      ensures error.NotBootable? ==> exists st :: st in slot.trail[from..] && !rules.bootable(st)
      ensures !ok ==> touched == old(touched)
    {
      hide HeadOk, Progress, Holds, FirstSector, Up, Reached, Sectors, Overlay, Blank, Installed, Writer.Written;
      ghost var states := slot.trail[from..];
      SealTells();
      checked := Some(taken);
      ok := slot.WriteHead(first[..]);
      assert slot.trail[from..] == states || slot.trail[from..] == states + [slot.mem];
      if !ok {
        error := FlashError;
        return;
      }
      if !rules.bootable(slot.mem) {
        assert slot.trail[from..][|states|] == slot.mem;
        error := NotBootable;
        return false;
      }
      touched := false;
    }

    /** What the held-back tail is: a trailer, a damaged one, or the image's own end. */
    function TailVerdict(): Verdict
      requires hold.Valid()
      reads this, hold, hold.buf
    {
      if hold.n == TRAILER then ParseTrailer(rules.crc, hold.Held(), image + hold.n) else Verdict.Absent
    }

    lemma TailTells()
      requires Live()
      ensures ImageOf(rules.crc, fed) ==
        match TailVerdict() { case Absent => Unsigned case Bad => Corrupt case Ok(_, der) => Signed(taken, der) }
      ensures TailVerdict().Ok? ==> TailVerdict().der != []
      ensures TailVerdict().Absent? ==> ImageBytes(rules.crc, fed) == fed
      ensures TailVerdict().Ok? ==> ImageBytes(rules.crc, fed) == taken
    {
      assert taken == fed[..|taken|];
      if hold.n == TRAILER {
        assert hold.Held() == fed[|fed| - TRAILER..];
      }
    }

    /** A file without a trailer: the tail is image too. */
    method TakeTail() returns (ok: bool)
      requires Live() && !ImageOf(rules.crc, fed).Signed? && !ImageOf(rules.crc, fed).Corrupt?
      modifies this`started, this`touched, this`fill, this`hashed, this`error, this`image, this`taken
      modifies slot, first, buf
      ensures Fixed() && History()
      ensures ok ==> Streaming() && taken == fed
      ensures !ok ==>
        error.FlashError? || (!error.NoError? && !error.NotBootable? && !Accepted(rules, slot.size, want, fed))
    {
      assert fed == taken + hold.Held();
      hide SafeHistory, Progress, HeadOk, Aligned, Unfit, FirstSector, ImageOk;
      ok := Take(hold.Held());
      if !ok && !error.FlashError? { UnfitWhole(rules, slot.size, want, fed); }
    }

    method DropTail()
      requires Streaming()
      modifies hold
      ensures Streaming()
    {
      hide SafeHistory, Progress;
      hold.Reset();
    }

    /** The tail is a damaged trailer. */
    method RefuseTail()
      requires Live() && ImageOf(rules.crc, fed).Corrupt?
      modifies this`error
      ensures Fixed() && History() && error.TrailerCorrupt? && !Accepted(rules, slot.size, want, fed)
    {
      hide SafeHistory, Progress, HeadOk, ImageOk, ImageOf;
      error := TrailerCorrupt;
    }

    lemma LiveTells()
      requires Live()
      ensures Streaming() && hold.Valid()
    {
      hide SafeHistory, Progress, Aligned;
    }

    lemma StreamingTells()
      requires Streaming()
      ensures Fixed() && History() && error.NoError? && checked.None? && image == |taken| && image <= slot.size
      ensures Buffered() && Aligned(image - fill) && Written(image - fill)
    {
      hide SafeHistory, Progress, Aligned;
    }

    /** The held-back tail is a trailer, or the image's own end; then the last sector goes out. */
    method Drain() returns (ok: bool, own: seq<byte>)
      requires Live()
      modifies this`started, this`touched, this`fill, this`hashed, this`error, this`image, this`taken
      modifies slot, first, buf, hold
      ensures Fixed() && History()
      ensures ok ==> error.NoError? && image == |taken| && image <= slot.size && Written(image)
      ensures ok ==> ImageOf(rules.crc, fed) == if own != [] then Signed(taken, own) else Unsigned
      ensures ok && own == [] ==> taken == fed
      ensures !ok ==>
        error.FlashError? || (!error.NoError? && !error.NotBootable? && !Accepted(rules, slot.size, want, fed))
    {
      hide *;
      LiveTells();
      TailTells();
      var tv := TailVerdict();
      own := if tv.Ok? then tv.der else [];
      if tv.Bad? {
        RefuseTail();
        return false, own;
      }
      ok := true;
      if tv.Absent? {
        ok := TakeTail();
        if !ok { return; }
      }
      DropTail();
      StreamingTells();
      ok := Flush();
      if !ok && error.BadHead? { BadHeadRefused(rules, slot.size, want, fed, taken); }
    }

    /** Everything finish() checks before the head goes in. */
    method Check() returns (ok: bool)
      requires Live()
      modifies this`started, this`touched, this`fill, this`hashed, this`error, this`image, this`taken
      modifies slot, first, buf, hold
      ensures Fixed() && History()
      ensures ok ==> error.NoError? && image == |taken| && image <= slot.size && Written(image) && started
      ensures ok ==> Accepted(rules, slot.size, want, fed) && taken == ImageBytes(rules.crc, fed)
      ensures ok ==> Erased() == Sectors(Reached(image)) && touched
      ensures !ok ==>
        error.FlashError? || (!error.NoError? && !error.NotBootable? && !Accepted(rules, slot.size, want, fed))
    {
      hide SafeHistory, Progress, HeadOk, Aligned, FirstSector, ImageOf, Sectors, Reached;
      var own;
      ok, own := Drain();
      if !ok { return; }
      ProgressTells(rules, started, touched, hashed, Erased(), slot.mem, base, first[..], taken);
      ok := Judge(own != [], own);
    }

    /** The end of the file. True: the slot holds exactly the file's image, in sectors erased once each and
        nothing past them, and the file passed every check. False, but for a flash fault or an image
        that does not boot: the file is not acceptable. */
    method Finish() returns (ok: bool)
      requires Valid()
      modifies this`started, this`touched, this`fill, this`hashed, this`error, this`image, this`taken
      modifies this`checked, slot, first, buf, hold
      ensures Fixed() && History() && (old(!error.NoError?) ==> !ok) && ok == error.NoError?
      ensures ok ==> Accepted(rules, slot.size, want, fed) && taken == ImageBytes(rules.crc, fed)
      ensures ok ==> Installed(slot.mem, base, taken) && rules.bootable(slot.mem)
      ensures ok ==> Erased() == Sectors(Reached(|taken|)) && !touched && error.NoError?
      ensures old(error).NoError? && !ok ==>
        error.FlashError? || error.NotBootable? || !Accepted(rules, slot.size, want, fed)
      ensures error.FlashError? ==> slot.faults > calm
      ensures old(error).NoError? && error.NotBootable? ==>
        exists st :: st in slot.trail[from..] && !rules.bootable(st)
      ensures checked != old(checked) ==>
        checked == Some(ImageBytes(rules.crc, fed)) && Accepted(rules, slot.size, want, fed)
      ensures !ok && !touched && old(checked).None? ==> slot.mem == base && |slot.trail| == from
    {
      hide SafeHistory, Progress, Accepted, ImageBytes, Installed, Sectors, Reached, HeadOk, FirstSector;
      Untouched();
      if !error.NoError? { return false; }
      ok := Check();
      Untouched();
      if ok {
        ok := Seal();
      }
    }

    lemma HistoryTells()
      requires Fixed() && History()
      ensures forall st :: st in slot.trail[from..] ==> CrashSafe(st, checked)
      ensures LeftSafe(slot.trail[from..], slot.mem, base, checked)
    {
    }

    lemma Untouched()
      requires Fixed() && History()
      ensures !touched && checked.None? ==> slot.mem == base && |slot.trail| == from
    {
      assert slot.trail[from..] == [] ==> |slot.trail| == from;
    }

    /** Drops the image under way; once the slot was touched, its first sector is erased. */
    method Abandon()
      requires Fixed()
      modifies this`started, this`touched, this`fill, slot, hold
      ensures Fixed() && !touched && !started && fill == 0 && hold.n == 0
      ensures old(History()) ==> LeftSafe(slot.trail[from..], slot.mem, base, checked)
      ensures old(History()) ==> forall st :: st in slot.trail[from..] ==> CrashSafe(st, checked)
      ensures !old(touched) ==> slot.mem == old(slot.mem) && slot.trail == old(slot.trail)
      ensures slot.erases == old(slot.erases) + if old(touched) && slot.size > 0 then [0] else []
      ensures slot.faults >= old(slot.faults) && (!old(touched) ==> slot.faults == old(slot.faults))
      ensures old(slot.trail) <= slot.trail
      ensures old(touched) && slot.size > 0 ==> slot.mem == old(slot.mem) || slot.mem[..HEAD_HOLD] == Blank(HEAD_HOLD)
    {
      ghost var states := slot.trail[from..];
      if touched && slot.size > 0 {
        SectorFits(0, slot.size);
        var _ := slot.EraseSector(0);
        assert slot.mem == old(slot.mem) || slot.mem[..HEAD_HOLD] == Blank(HEAD_HOLD);
        assert slot.trail[from..] == states || slot.trail[from..] == states + [slot.mem];
      }
      started, touched := false, false;
      hold.Reset();
      fill := 0;
    }

    lemma NothingYet()
      requires Fixed()
      ensures Progress(rules, false, false, [], [], slot.mem, slot.mem, first[..], [], 0) && Aligned(0)
      ensures SafeHistory([], slot.mem, slot.mem, None, false)
    {
      assert Up(0) == 0 && Reached(0) == 0;
    }

    /** The fields of a writer that has seen nothing of an image. */
    method Clear(w: Wanted)
      modifies this`want, this`image, this`hashed, this`error, this`fed, this`taken, this`base, this`from, this`since
      modifies this`calm, this`checked
      ensures want == w && image == 0 && hashed == [] && error.NoError? && checked.None?
      ensures fed == [] && taken == [] && base == slot.mem && from == |slot.trail| && since == |slot.erases|
      ensures calm == slot.faults
    {
      want := w;
      image, hashed, error := 0, [], NoError;
      fed, taken, base, from, since, calm, checked := [], [], slot.mem, |slot.trail|, |slot.erases|, slot.faults, None;
    }

    /** A new image, whatever became of the one before. */
    method Begin(w: Wanted)
      requires Fixed()
      modifies this, slot, hold
      ensures Live() && fed == [] && want == w && base == slot.mem && from == |slot.trail| && since == |slot.erases|
      ensures calm == slot.faults >= old(slot.faults)
      ensures !old(touched) ==> slot.mem == old(slot.mem) && slot.trail == old(slot.trail)
    {
      Abandon();
      NothingYet();
      hide Progress, SafeHistory, Aligned;
      Clear(w);
      assert slot.trail[from..] == [] && Erased() == [];
    }
  }
}
