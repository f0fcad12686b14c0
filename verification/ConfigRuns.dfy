/** Runs of one configuration entry: saves from any task, the FlashWriter's deferred
    save in its separately locked steps, loads, resets, Save Backups at once or queued,
    and power cuts at any instant, in any order. */
module ConfigRuns {
  import opened Options
  import opened ConfigFlash
  import opened ConfigStore

  /** Where the FlashWriter is with this entry: Due, a backup copy to make first;
      Ready, about to save with the copy taken as made. */
  datatype Writer = Idle | Due | Ready

  /** Where a run of the queued Save Backup is with this entry, each of its steps under the lock anew. */
  datatype Snap = NoSnap | SnapDue | SnapMade | SnapBroken

  /** `last`: the value saved or recovered last (None: nothing yet); `snaps`: the runs of the queued Save Backup. */
  datatype State = State(ram: Ram, disk: Disk, last: Option<Value>, writer: Writer, snaps: map<nat, Snap>)

  datatype Event =
    | TaskSave(save: SaveEnv)      // saveIfChanged, any task
    | FlushSave(save: SaveEnv)     // the restart's flush
    | WriterCheck
    | WriterBackup(backup: BackupEnv)
    | WriterSave(save: SaveEnv)
    | WriterStop                   // no slot, or the job ends
    | LoadEntry(load: EntryLoadEnv)
    | ResetEntry
    | SaveBackup(copy: CopyEnv)    // at once, under one lock
    | SnapLook(run: nat)           // queued: the entry has a primary, not known to be stale
    | SnapCopy(run: nat, copied: CopyOutcome)
    | SnapRename(run: nat, renamed: bool)
    | SnapTidy(run: nat, removed: bool)
    | SnapStop(run: nat)

  datatype Item = Do(event: Event) | CutIn(event: Event, at: nat) | CutIdle

  datatype Outcome = Outcome(state: State, trail: seq<Disk>)

  predicate Enabled(s: State, e: Event) {
    match e
    case TaskSave(_) => s.ram.ready
    case FlushSave(_) => s.ram.ready && (s.ram.deferred || s.ram.late)
    case WriterCheck => s.ram.ready && s.writer.Idle? && (s.ram.deferred || s.ram.late)
    case WriterBackup(_) => s.writer.Due?
    case WriterSave(_) => s.writer.Ready?
    case WriterStop => !s.writer.Idle?
    case LoadEntry(_) => !s.ram.loaded
    case ResetEntry => s.ram.ready
    case SaveBackup(_) => s.ram.ready
    case SnapLook(r) => s.ram.ready && SnapOf(s, r).NoSnap? && s.disk.Exists(Primary) && !s.ram.stale
    case SnapCopy(r, _) => s.ram.ready && SnapOf(s, r).SnapDue?
    case SnapRename(r, _) => s.ram.ready && SnapOf(s, r).SnapMade?
    case SnapTidy(r, _) => s.ram.ready && SnapOf(s, r).SnapBroken?
    case SnapStop(r) => s.ram.ready && !SnapOf(s, r).NoSnap?
  }

  function SnapOf(s: State, r: nat): Snap {
    if r in s.snaps then s.snaps[r] else NoSnap
  }

  function SnapAt(s: State, r: nat, p: Snap): State {
    s.(snaps := s.snaps[r := p])
  }

  function Saved(s: State, slotHeld: bool, backupDone: bool, env: SaveEnv): Outcome {
    var r := SaveStep(s.ram, s.disk, slotHeld, backupDone, env);
    var last := if r.ok && Writes(s.ram, slotHeld, env) then Some(env.data) else s.last;
    Outcome(s.(ram := r.ram, disk := r.disk, last := last), r.trail)
  }

  function Next(s: State, e: Event): Outcome {
    match e
    case TaskSave(env) => Saved(s, false, false, env)
    case FlushSave(env) => Saved(s, true, false, env)
    case WriterCheck => Outcome(s.(writer := if BackupDue(s.ram, s.disk) then Due else Ready), [])
    case WriterBackup(env) =>
      var r := BackupForSave(s.ram, s.disk, env);
      Outcome(s.(ram := r.ram, disk := r.disk, writer := if r.result.Made? then Ready else Idle), r.trail)
    case WriterSave(env) =>
      var o := Saved(s, true, true, env);
      o.(state := o.state.(writer := Idle))
    case WriterStop => Outcome(s.(writer := Idle), [])
    case LoadEntry(env) =>
      var r := Load(s.ram, s.disk, env);
      Outcome(s.(ram := r.ram, disk := r.disk, last := if r.found.Whole? then Some(r.found.value) else s.last), r.trail)
    case ResetEntry => Outcome(s.(ram := s.ram.(hasCrc := false)), [])
    case SaveBackup(env) =>
      var r := Snapshot(s.ram, s.disk, env);
      Outcome(s.(disk := r.disk), r.trail)
    case SnapLook(r) => Outcome(SnapAt(s, r, SnapDue), [])
    case SnapCopy(r, o) =>
      var c := Copy(s.disk, Primary, BackupTmp, o);
      Outcome(SnapAt(s, r, if c.ok then SnapMade else SnapBroken).(disk := c.disk), c.trail)
    case SnapRename(r, renamed) =>
      var x := Rename(s.disk, BackupTmp, Path.Backup, renamed);
      Outcome(SnapAt(s, r, if x.ok then NoSnap else SnapBroken).(disk := x.disk), x.trail)
    case SnapTidy(r, removed) =>
      var x := Remove(s.disk, BackupTmp, removed);
      Outcome(SnapAt(s, r, NoSnap).(disk := x.disk), x.trail)
    case SnapStop(r) => Outcome(SnapAt(s, r, NoSnap), [])
  }

  predicate Possible(s: State, i: Item) {
    match i
    case Do(e) => Enabled(s, e)
    case CutIn(e, at) => Enabled(s, e) && at < |Next(s, e).trail|
    case CutIdle => true
  }

  /** The disk survives a power cut, the flags do not. */
  function Rebooted(s: State, d: Disk): State {
    State(FRESH_RAM, d, s.last, Idle, map[])
  }

  function After(s: State, i: Item): State
    requires Possible(s, i)
  {
    match i
    case Do(e) => Next(s, e).state
    case CutIn(e, at) => Rebooted(s, Next(s, e).trail[at])
    case CutIdle => Rebooted(s, s.disk)
  }

  predicate ValidRun(s: State, run: seq<Item>)
    decreases run
  {
    run == [] || (Possible(s, run[0]) && ValidRun(After(s, run[0]), run[1..]))
  }

  /** The disk states an item passes through. */
  function Instants(s: State, i: Item): seq<Disk> {
    match i
    case Do(e) => Next(s, e).trail
    case CutIn(e, _) => Next(s, e).trail
    case CutIdle => []
  }

  // ---- what the store promises -----------------------------------------------

  predicate Safe(d: Disk) {
    d.Verifies(Primary) || d.Verifies(Path.Backup)
  }

  /** Once something is saved or recovered, each instant keeps a file that verifies, and a
      backup that verifies is only ever replaced by one that verifies. */
  ghost predicate StepSafe(s: State, i: Item) {
    s.last.Some? ==>
      forall d :: d in Instants(s, i) ==> Safe(d) && (s.disk.Verifies(Path.Backup) ==> d.Verifies(Path.Backup))
  }

  ghost predicate AlwaysSafe(s: State, run: seq<Item>)
    requires ValidRun(s, run)
    decreases run
  {
    run == [] || (StepSafe(s, run[0]) && AlwaysSafe(After(s, run[0]), run[1..]))
  }

  /** The condition under which the three unguarded steps keep the promise, one a caller can test before the call:
      the FlashWriter's save has no copy due, or the backup verifies; a Save Backup copies a primary that verifies,
      and a queued one renames a temporary file that verifies, or there is no good backup to lose. */
  predicate Guarded(s: State, e: Event) {
    s.last.Some? ==>
      match e
      case WriterSave(_) => BackupDue(s.ram, s.disk) ==> s.disk.Verifies(Path.Backup)
      case SaveBackup(_) =>
        s.disk.Verifies(Path.Backup) ==> s.disk.Verifies(Primary) || s.ram.stale || !s.disk.Exists(Primary)
      case SnapRename(_, _) =>
        s.disk.Verifies(Path.Backup) ==> s.disk.Verifies(BackupTmp) || !s.disk.Exists(BackupTmp)
      case _ => true
  }

  predicate ItemGuarded(s: State, i: Item) {
    i.CutIdle? || Guarded(s, i.event)
  }

  predicate RunGuarded(s: State, run: seq<Item>)
    requires ValidRun(s, run)
    decreases run
  {
    run == [] || (ItemGuarded(s, run[0]) && RunGuarded(After(s, run[0]), run[1..]))
  }

  /** The invariant behind it: a primary that fails beside something recoverable is
      remembered as stale or held until it is rewritten, or a load is still to come. */
  predicate Inv(s: State) {
    && (s.last.Some? ==> Safe(s.disk))
    && (s.last.Some? && s.ram.ready && !s.disk.Verifies(Primary) ==> s.ram.held || s.ram.stale)
    && (s.last.Some? && (s.ram.held || s.ram.stale) ==> s.disk.Verifies(Path.Backup))
    && (!s.ram.ready ==> s.ram == FRESH_RAM.(late := s.ram.late) && s.writer.Idle?)
    && (s.ram.ready && !s.ram.loaded ==> s.last.Some?)
  }

  lemma SaveIsCommit(s: State, slotHeld: bool, backupDone: bool, env: SaveEnv)
    requires Writes(s.ram, slotHeld, env)
    ensures SaveStep(s.ram, s.disk, slotHeld, backupDone, env)
      == Commit(s.ram.(late := false), s.disk, backupDone, env.data, env.write)
  {
    hide Commit;
  }

  lemma WriteKeepsInv(s: State, slotHeld: bool, backupDone: bool, env: SaveEnv)
    requires Inv(s) && s.ram.ready && Writes(s.ram, slotHeld, env)
    requires backupDone && s.last.Some? && BackupDue(s.ram, s.disk) ==> s.disk.Verifies(Path.Backup)
    ensures Inv(Saved(s, slotHeld, backupDone, env).state)
    ensures s.last.Some? ==> forall d :: d in Saved(s, slotHeld, backupDone, env).trail ==>
      Safe(d) && (s.disk.Verifies(Path.Backup) ==> d.Verifies(Path.Backup))
  {
    hide AtomicWrite, SaveStep;
    SaveIsCommit(s, slotHeld, backupDone, env);
    AtomicWriteFacts(s.disk, !(backupDone || s.ram.stale || s.ram.held), env.data, env.write);
  }

  lemma SaveKeepsInv(s: State, slotHeld: bool, backupDone: bool, env: SaveEnv)
    requires Inv(s) && s.ram.ready
    requires backupDone && s.last.Some? && BackupDue(s.ram, s.disk) ==> s.disk.Verifies(Path.Backup)
    ensures Inv(Saved(s, slotHeld, backupDone, env).state)
    ensures s.last.Some? ==> forall d :: d in Saved(s, slotHeld, backupDone, env).trail ==>
      Safe(d) && (s.disk.Verifies(Path.Backup) ==> d.Verifies(Path.Backup))
  {
    if Writes(s.ram, slotHeld, env) {
      WriteKeepsInv(s, slotHeld, backupDone, env);
    } else {
      hide Commit;
    }
  }

  lemma BackupKeepsInv(s: State, env: BackupEnv)
    requires Inv(s) && s.writer.Due?
    ensures Inv(Next(s, WriterBackup(env)).state)
    ensures StepSafe(s, Do(WriterBackup(env)))
  {
    hide CopyReplace;
    CopyReplaceFacts(s.disk, env.copy);
  }

  lemma LoadKeepsInv(s: State, env: EntryLoadEnv)
    requires Inv(s) && !s.ram.loaded
    ensures Inv(Next(s, LoadEntry(env)).state)
    ensures StepSafe(s, Do(LoadEntry(env)))
  {
    LoadFacts(s.disk, env.load);
  }

  lemma SnapshotKeepsInv(s: State, env: CopyEnv)
    requires Inv(s) && s.ram.ready && Guarded(s, SaveBackup(env))
    ensures Inv(Next(s, SaveBackup(env)).state)
    ensures StepSafe(s, Do(SaveBackup(env)))
  {
    hide CopyReplace;
    CopyReplaceFacts(s.disk, env);
  }

  lemma QueuedKeepsInv(s: State, e: Event)
    requires Inv(s) && Enabled(s, e) && Guarded(s, e)
    requires e.SnapLook? || e.SnapCopy? || e.SnapRename? || e.SnapTidy? || e.SnapStop?
    ensures Inv(Next(s, e).state)
    ensures StepSafe(s, Do(e))
  {
  }

  lemma EventKeepsInv(s: State, e: Event)
    requires Inv(s) && Enabled(s, e) && Guarded(s, e)
    ensures Inv(Next(s, e).state)
    ensures StepSafe(s, Do(e))
  {
    match e
    case TaskSave(env) => SaveKeepsInv(s, false, false, env);
    case FlushSave(env) => SaveKeepsInv(s, true, false, env);
    case WriterCheck =>
    case WriterBackup(env) => BackupKeepsInv(s, env);
    case WriterSave(env) => SaveKeepsInv(s, true, true, env);
    case WriterStop =>
    case LoadEntry(env) => LoadKeepsInv(s, env);
    case ResetEntry =>
    case SaveBackup(env) => SnapshotKeepsInv(s, env);
    case _ => QueuedKeepsInv(s, e);
  }

  /** Crash safety over every run: whatever the tasks, the FlashWriter and the power do. */
  lemma {:induction false} RunSafe(s: State, run: seq<Item>)
    requires Inv(s) && ValidRun(s, run) && RunGuarded(s, run)
    ensures AlwaysSafe(s, run)
    decreases run
  {
    if run != [] {
      var i := run[0];
      if !i.CutIdle? {
        EventKeepsInv(s, i.event);
        assert StepSafe(s, i) by { assert Instants(s, i) == Instants(s, Do(i.event)); }
      }
      RunSafe(After(s, i), run[1..]);
    }
  }

  /** The entry at power-on over any file system, nothing known to be saved. */
  function Boot(d: Disk): State {
    State(FRESH_RAM, d, None, Idle, map[])
  }

  lemma EveryBootIsSafe(d: Disk, run: seq<Item>)
    requires ValidRun(Boot(d), run) && RunGuarded(Boot(d), run)
    ensures AlwaysSafe(Boot(d), run)
  {
    RunSafe(Boot(d), run);
  }

  // ---- where the promise fails, and exactly when ------------------------------

  function End(s: State, run: seq<Item>): State
    requires ValidRun(s, run)
    decreases run
  {
    if run == [] then s else End(After(s, run[0]), run[1..])
  }

  const BLANK := Disk(Absent, Absent, Absent, Absent)
  const COPY_OK := CopyEnv(Copied, true, true)
  const WRITE_OK := WriteEnv(true, true, COPY_OK, true, true, false, true)
  const RESTORE_OK := RestoreEnv(true, true, true, Copied, true, Copied, true)

  const FIRST_LOAD := Do(LoadEntry(EntryLoadEnv(LoadEnv(true, RESTORE_OK), true, None, false)))

  function SaveOf(v: Value, gateFree: bool): SaveEnv {
    SaveEnv(true, false, true, v, true, gateFree, false, true, WRITE_OK)
  }

  /** The FlashWriter finds no file and so no copy to make; before its turn comes another task
      saves `first`; then the FlashWriter overwrites that only file with `second`, and the power goes. */
  function LostFirstSave(first: Value, second: Value): seq<Item> {
    [FIRST_LOAD,
     Do(TaskSave(SaveOf(first, false))),
     Do(WriterCheck),
     Do(TaskSave(SaveOf(first, true))),
     CutIn(WriterSave(SaveOf(second, true)), 0)]
  }

  lemma FirstSaveCanBeLost(first: Value, second: Value)
    requires first.crc != second.crc
    ensures var run := LostFirstSave(first, second);
      ValidRun(Boot(BLANK), run) && !AlwaysSafe(Boot(BLANK), run)
      && End(Boot(BLANK), run).last == Some(first) && !Safe(End(Boot(BLANK), run).disk)
  {
    var run := LostFirstSave(first, second);
    var s1 := After(Boot(BLANK), run[0]);
    var s2 := After(s1, run[1]);
    var s3 := After(s2, run[2]);
    assert s3.writer == Ready && s3.disk == BLANK;
    var s4 := After(s3, run[3]);
    assert s4.last == Some(first) && s4.disk == Disk(Whole(first), Absent, Absent, Absent);
    var torn := Next(s4, run[4].event).trail[0];
    assert torn == Disk(Torn, Absent, Absent, Absent) && !Safe(torn);
    assert !StepSafe(s4, run[4]) by { assert torn in Instants(s4, run[4]); }
    assert Possible(s4, run[4]) && Possible(s3, run[3]) && Possible(s2, run[2]) && Possible(s1, run[1])
      && Possible(Boot(BLANK), run[0]);
    var s5 := After(s4, run[4]);
    assert s5.last == Some(first) && s5.disk == torn;
    hide After, Possible, StepSafe, Safe;
    Prepend(s4, run[4], []);
    Prepend(s3, run[3], [run[4]]);
    Prepend(s2, run[2], [run[3], run[4]]);
    Prepend(s1, run[1], [run[2], run[3], run[4]]);
    Prepend(Boot(BLANK), run[0], [run[1], run[2], run[3], run[4]]);
  }

  lemma Prepend(s: State, i: Item, rest: seq<Item>)
    requires Possible(s, i) && ValidRun(After(s, i), rest)
    ensures ValidRun(s, [i] + rest) && End(s, [i] + rest) == End(After(s, i), rest)
    ensures AlwaysSafe(s, [i] + rest) <==> StepSafe(s, i) && AlwaysSafe(After(s, i), rest)
  {
    assert ([i] + rest)[1..] == rest;
  }

  /** The FlashWriter's save is safe whatever happens in it if and only if no copy is due or the backup verifies. */
  lemma WriterSaveSafeIff(s: State)
    requires Inv(s) && s.last.Some? && s.writer.Ready?
    ensures (forall env :: StepSafe(s, Do(WriterSave(env)))) <==>
      (BackupDue(s.ram, s.disk) ==> s.disk.Verifies(Path.Backup))
  {
    if BackupDue(s.ram, s.disk) ==> s.disk.Verifies(Path.Backup) {
      forall env ensures StepSafe(s, Do(WriterSave(env))) {
        EventKeepsInv(s, WriterSave(env));
      }
    } else {
      var env := SaveOf(Value(0, s.ram.crc + 1), true);
      var torn := s.disk.Set(Primary, Torn);
      assert Next(s, WriterSave(env)).trail[0] == torn;
      assert torn in Instants(s, Do(WriterSave(env)));
      assert !StepSafe(s, Do(WriterSave(env)));
    }
  }

  /** Save Backup looks at the stale flag only, so a torn primary that is merely held goes over the good backup. */
  lemma SaveBackupSafeIff(s: State)
    requires Inv(s) && s.last.Some? && s.ram.ready
    ensures (forall env :: StepSafe(s, Do(SaveBackup(env)))) <==>
      (s.disk.Verifies(Path.Backup) ==> s.disk.Verifies(Primary) || s.ram.stale || !s.disk.Exists(Primary))
  {
    if s.disk.Verifies(Path.Backup) ==> s.disk.Verifies(Primary) || s.ram.stale || !s.disk.Exists(Primary) {
      forall env ensures StepSafe(s, Do(SaveBackup(env))) {
        EventKeepsInv(s, SaveBackup(env));
      }
    } else {
      var r := Snapshot(s.ram, s.disk, COPY_OK);
      assert r.ok && r.disk.backup == Torn && r.trail[2] == r.disk;
      assert r.disk in Instants(s, Do(SaveBackup(COPY_OK)));
      assert !StepSafe(s, Do(SaveBackup(COPY_OK)));
    }
  }

  /** restoreFromBackup copies the backup without verifying it. */
  lemma RestoreSafeIff(s: State)
    requires Inv(s) && s.last.Some?
    ensures (forall env :: forall d :: d in RestoreBackup(s.disk, env).trail ==> Safe(d)) <==>
      (s.disk.Exists(Path.Backup) ==> s.disk.Verifies(Path.Backup))
  {
    if s.disk.Exists(Path.Backup) ==> s.disk.Verifies(Path.Backup) {
      forall env, d | d in RestoreBackup(s.disk, env).trail ensures Safe(d) {
        RestoreFacts(s.disk, env);
      }
    } else {
      var r := RestoreBackup(s.disk, RESTORE_OK);
      assert r.disk.primary == Torn && !Safe(r.disk) && r.trail[|r.trail| - 1] == r.disk;
    }
  }

  /** The queued Save Backup renames a temporary file that a save may have broken since it was copied. */
  lemma SnapRenameSafeIff(s: State, r: nat)
    requires Inv(s) && s.last.Some? && s.ram.ready && SnapOf(s, r).SnapMade?
    ensures (forall renamed :: StepSafe(s, Do(SnapRename(r, renamed)))) <==>
      (s.disk.Verifies(Path.Backup) ==> s.disk.Verifies(BackupTmp) || !s.disk.Exists(BackupTmp))
  {
    if s.disk.Verifies(Path.Backup) ==> s.disk.Verifies(BackupTmp) || !s.disk.Exists(BackupTmp) {
      forall renamed ensures StepSafe(s, Do(SnapRename(r, renamed))) {
        EventKeepsInv(s, SnapRename(r, renamed));
      }
    } else {
      var o := Next(s, SnapRename(r, true));
      assert o.state.disk.backup == Torn && o.trail[0] == o.state.disk;
      assert o.state.disk in Instants(s, Do(SnapRename(r, true)));
      assert !StepSafe(s, Do(SnapRename(r, true)));
    }
  }

  // ---- runs from power-on that the code can take

  /** One more item of a run from power-on. */
  lemma On(d: Disk, run: seq<Item>, s: State, i: Item) returns (more: seq<Item>, t: State)
    requires ValidRun(Boot(d), run) && s == End(Boot(d), run) && Possible(s, i)
    ensures more == run + [i] && ValidRun(Boot(d), more) && t == After(s, i) == End(Boot(d), more)
  {
    more, t := run + [i], After(s, i);
    Append(Boot(d), run, i);
  }

  lemma {:induction false} Append(s: State, run: seq<Item>, i: Item)
    requires ValidRun(s, run) && Possible(End(s, run), i)
    ensures ValidRun(s, run + [i]) && End(s, run + [i]) == After(End(s, run), i)
    decreases run
  {
    hide Possible, After;
    if run == [] {
      assert run + [i] == [i] && [i][1..] == [];
      assert End(After(s, i), []) == After(s, i);
    } else {
      Append(After(s, run[0]), run[1..], i);
      assert (run + [i])[1..] == run[1..] + [i];
    }
  }

  /** The entry after a save that went through. */
  function JustSaved(v: Value, d: Disk): State {
    State(Ram(true, true, false, false, false, false, true, v.crc), d, Some(v), Idle, map[])
  }

  lemma FirstSave(backup: File, v: Value) returns (run: seq<Item>)
    requires backup.Absent? || backup.Torn?
    ensures var d := Disk(Absent, backup, Absent, Absent);
      ValidRun(Boot(d), run) && End(Boot(d), run) == JustSaved(v, d.(primary := Whole(v)))
  {
    var d, s := Disk(Absent, backup, Absent, Absent), Boot(Disk(Absent, backup, Absent, Absent));
    run := [];
    assert ValidRun(s, []) && End(s, []) == s;
    hide ValidRun, End;
    run, s := On(d, run, s, FIRST_LOAD);
    run, s := On(d, run, s, Do(TaskSave(SaveOf(v, true))));
  }

  /** The write of `second` tears the primary; Save Backup copies that over the good backup. */
  lemma BothCanBeLost(first: Value, second: Value) returns (run: seq<Item>)
    requires first.crc != second.crc
    ensures ValidRun(Boot(BLANK), run)
    ensures var s := End(Boot(BLANK), run);
      && Enabled(s, SaveBackup(COPY_OK)) && s.last == Some(first)
      && Safe(s.disk) && !Safe(Next(s, SaveBackup(COPY_OK)).state.disk)
  {
    run := FirstSave(Absent, first);
    var s := JustSaved(first, BLANK.(primary := Whole(first)));
    hide ValidRun, End;
    run, s := On(BLANK, run, s, Do(TaskSave(SaveOf(second, true).(write := WRITE_OK.(write := false)))));
    assert s.disk == Disk(Torn, Whole(first), Absent, Absent);
  }

  /** Booted over a torn backup and no primary: a save leaves that backup, and a restore copies it over what was
      saved. */
  lemma RestoreCanLoseIt(first: Value) returns (run: seq<Item>)
    ensures var d := Disk(Absent, Torn, Absent, Absent);
      && ValidRun(Boot(d), run) && End(Boot(d), run).last == Some(first)
      && Safe(End(Boot(d), run).disk) && !Safe(RestoreBackup(End(Boot(d), run).disk, RESTORE_OK).disk)
  {
    run := FirstSave(Torn, first);
    hide ValidRun, End;
  }

  /** Between the two steps of a queued Save Backup the backup copy of a save breaks in the same temporary file, and
      its removal is turned away: the rename then brings the broken copy over the good backup. */
  lemma BackupCanBeSpoiled(first: Value, second: Value, third: Value) returns (run: seq<Item>)
    requires first.crc != second.crc && second.crc != third.crc
    ensures ValidRun(Boot(BLANK), run)
    ensures var s := End(Boot(BLANK), run); var e := SnapRename(0, true);
      && Enabled(s, e) && s.disk == Disk(Whole(second), Whole(first), Torn, Absent)
      && Next(s, e).state.disk == Disk(Whole(second), Torn, Absent, Absent) && !StepSafe(s, Do(e))
  {
    run := FirstSave(Absent, first);
    var s := JustSaved(first, BLANK.(primary := Whole(first)));
    hide ValidRun, End;
    run, s := On(BLANK, run, s, Do(TaskSave(SaveOf(second, true))));
    assert s == JustSaved(second, Disk(Whole(second), Whole(first), Absent, Absent));
    run, s := CopyBreaks(run, second, first, third);
    assert Next(s, SnapRename(0, true)).trail == [Disk(Whole(second), Torn, Absent, Absent)];
    assert Instants(s, Do(SnapRename(0, true)))[0] in Instants(s, Do(SnapRename(0, true)));
  }

  lemma CopyBreaks(run: seq<Item>, v: Value, before: Value, next: Value) returns (more: seq<Item>, t: State)
    requires ValidRun(Boot(BLANK), run) && v.crc != next.crc
    requires End(Boot(BLANK), run) == JustSaved(v, Disk(Whole(v), Whole(before), Absent, Absent))
    ensures ValidRun(Boot(BLANK), more) && t == End(Boot(BLANK), more) && t.ram.ready && t.last == Some(v)
    ensures t.disk == Disk(Whole(v), Whole(before), Torn, Absent) && SnapOf(t, 0).SnapMade?
  {
    hide ValidRun, End;
    var s := JustSaved(v, Disk(Whole(v), Whole(before), Absent, Absent));
    more, t := On(BLANK, run, s, Do(SnapLook(0)));
    more, t := On(BLANK, more, t, Do(SnapCopy(0, Copied)));
    assert t == s.(snaps := map[0 := SnapMade], disk := s.disk.(backupTmp := Whole(v)));
    var env := SaveOf(next, true).(write := WRITE_OK.(backup := CopyEnv(Broken, true, false)));
    more, t := On(BLANK, more, t, Do(TaskSave(env)));
  }

  // ---- which value a power cut leaves -----------------------------------------

  /** What a boot would load from this disk. */
  function Recovered(d: Disk): Option<Value> {
    if d.primary.Whole? then Some(d.primary.value)
    else if d.backup.Whole? then Some(d.backup.value)
    else None
  }

  predicate InvValue(s: State) {
    && Inv(s)
    && (s.last.Some? && s.ram.ready ==> Recovered(s.disk) == s.last)
    && (s.last.Some? && (s.ram.held || s.ram.stale) ==> s.disk.backup == Whole(s.last.value))
    && (s.ram.hasCrc ==> s.last.Some? && s.ram.crc == s.last.value.crc)
  }

  /** A second step of the FlashWriter with a copy due finds the value saved last in the backup; a load applies what
      it read, by its CRC; no Save Backup goes over a backup that is needed, by a copy that fails to verify or, queued
      and with the primary held or stale, by anything but the value saved last. */
  predicate Strict(s: State, e: Event) {
    match e
    case WriterSave(_) => s.last.Some? && BackupDue(s.ram, s.disk) ==> s.disk.backup == Whole(s.last.value)
    case LoadEntry(env) =>
      env.read.Some? && Recovered(s.disk).Some? ==> env.read.value.crc == Recovered(s.disk).value.crc
    case SaveBackup(_) => Guarded(s, e)
    case SnapRename(_, _) => RenameKeeps(s)
    case _ => true
  }

  predicate RenameKeeps(s: State) {
    s.last.Some? && (s.ram.held || s.ram.stale) && s.disk.Exists(BackupTmp) ==> s.disk.backupTmp == Whole(s.last.value)
  }

  function DataOf(e: Event): Option<Value> {
    match e
    case TaskSave(env) => Some(env.data)
    case FlushSave(env) => Some(env.data)
    case WriterSave(env) => Some(env.data)
    case _ => None
  }

  /** At each instant of a save a boot would load the value saved last or the one being saved,
      and at each instant of anything else what it would have loaded before. */
  ghost predicate StepRecovers(s: State, e: Event) {
    s.last.Some? ==>
      forall d :: d in Next(s, e).trail ==>
        Recovered(d) == Recovered(s.disk) || (DataOf(e).Some? && Recovered(d) == DataOf(e))
  }

  lemma WriteTrailRecovers(s: State, slotHeld: bool, backupDone: bool, env: SaveEnv)
    requires InvValue(s) && s.ram.ready && Writes(s.ram, slotHeld, env)
    requires backupDone && s.last.Some? && BackupDue(s.ram, s.disk) ==> s.disk.backup == Whole(s.last.value)
    ensures s.last.Some? ==> forall d :: d in Saved(s, slotHeld, backupDone, env).trail ==>
      Recovered(d) == s.last || Recovered(d) == Some(env.data)
  {
    AtomicWriteFacts(s.disk, !(backupDone || s.ram.stale || s.ram.held), env.data, env.write);
    assert s.last.Some? ==> s.disk.primary == Whole(s.last.value) || s.disk.backup == Whole(s.last.value);
    hide AtomicWrite, Inv, SaveStep;
    SaveIsCommit(s, slotHeld, backupDone, env);
  }

  lemma WriteKeepsValue(s: State, slotHeld: bool, backupDone: bool, env: SaveEnv)
    requires InvValue(s) && s.ram.ready && Writes(s.ram, slotHeld, env)
    requires backupDone && s.last.Some? && BackupDue(s.ram, s.disk) ==> s.disk.backup == Whole(s.last.value)
    ensures InvValue(Saved(s, slotHeld, backupDone, env).state)
  {
    AtomicWriteFacts(s.disk, !(backupDone || s.ram.stale || s.ram.held), env.data, env.write);
    SaveKeepsInv(s, slotHeld, backupDone, env);
    hide AtomicWrite, Inv, SaveStep;
    SaveIsCommit(s, slotHeld, backupDone, env);
  }

  lemma SaveKeepsValue(s: State, slotHeld: bool, backupDone: bool, env: SaveEnv)
    requires InvValue(s) && s.ram.ready
    requires backupDone && s.last.Some? && BackupDue(s.ram, s.disk) ==> s.disk.backup == Whole(s.last.value)
    ensures InvValue(Saved(s, slotHeld, backupDone, env).state)
    ensures s.last.Some? ==> forall d :: d in Saved(s, slotHeld, backupDone, env).trail ==>
      Recovered(d) == s.last || Recovered(d) == Some(env.data)
  {
    if Writes(s.ram, slotHeld, env) {
      WriteKeepsValue(s, slotHeld, backupDone, env);
      WriteTrailRecovers(s, slotHeld, backupDone, env);
      hide Commit;
    } else {
      hide Commit;
    }
  }

  lemma BackupKeepsValue(s: State, env: BackupEnv)
    requires InvValue(s) && s.writer.Due?
    ensures InvValue(Next(s, WriterBackup(env)).state)
    ensures StepRecovers(s, WriterBackup(env))
  {
    CopyReplaceFacts(s.disk, env.copy);
    hide CopyReplace;
  }

  lemma LoadKeepsValue(s: State, env: EntryLoadEnv)
    requires InvValue(s) && !s.ram.loaded && Strict(s, LoadEntry(env))
    ensures InvValue(Next(s, LoadEntry(env)).state)
    ensures StepRecovers(s, LoadEntry(env))
  {
    LoadFacts(s.disk, env.load);
    hide LoadOrRecover;
  }

  lemma SnapshotKeepsValue(s: State, env: CopyEnv)
    requires InvValue(s) && s.ram.ready && Guarded(s, SaveBackup(env))
    ensures InvValue(Next(s, SaveBackup(env)).state)
    ensures StepRecovers(s, SaveBackup(env))
  {
    CopyReplaceFacts(s.disk, env);
    hide CopyReplace;
  }

  lemma QueuedKeepsValue(s: State, e: Event)
    requires InvValue(s) && Enabled(s, e) && Strict(s, e)
    requires e.SnapLook? || e.SnapCopy? || e.SnapRename? || e.SnapTidy? || e.SnapStop?
    ensures InvValue(Next(s, e).state)
    ensures StepRecovers(s, e)
  {
  }

  lemma EventKeepsValue(s: State, e: Event)
    requires InvValue(s) && Enabled(s, e) && Strict(s, e)
    ensures InvValue(Next(s, e).state)
    ensures StepRecovers(s, e)
  {
    hide SaveStep, BackupForSave, Load, Snapshot;
    match e
    case TaskSave(env) => SaveKeepsValue(s, false, false, env);
    case FlushSave(env) => SaveKeepsValue(s, true, false, env);
    case WriterSave(env) => SaveKeepsValue(s, true, true, env);
    case WriterBackup(env) => BackupKeepsValue(s, env);
    case LoadEntry(env) => LoadKeepsValue(s, env);
    case SaveBackup(env) => SnapshotKeepsValue(s, env);
    case WriterCheck =>
    case WriterStop =>
    case ResetEntry =>
    case _ => QueuedKeepsValue(s, e);
  }

  /** The FlashWriter's second step costs no value at any instant exactly if no copy is due, or the backup holds the
      value saved last. */
  lemma WriterSaveRecoversIff(s: State)
    requires InvValue(s) && s.last.Some? && s.writer.Ready?
    ensures (forall env :: StepRecovers(s, WriterSave(env))) <==>
      (BackupDue(s.ram, s.disk) ==> s.disk.backup == Whole(s.last.value))
  {
    if BackupDue(s.ram, s.disk) ==> s.disk.backup == Whole(s.last.value) {
      forall env ensures StepRecovers(s, WriterSave(env)) {
        EventKeepsValue(s, WriterSave(env));
      }
    } else {
      var other := if s.disk.backup.Whole? then s.disk.backup.value.content + 1 else 0;
      var env := SaveOf(Value(other, s.ram.crc + 1), true);
      assert Next(s, WriterSave(env)).trail[0] == s.disk.Set(Primary, Torn);
      assert Recovered(s.disk.Set(Primary, Torn)) != Some(env.data);
      assert !StepRecovers(s, WriterSave(env));
    }
  }

  /** A Save Backup at once costs no value exactly if it does not copy a primary that fails over a good backup. */
  lemma SaveBackupRecoversIff(s: State)
    requires InvValue(s) && s.last.Some? && s.ram.ready
    ensures (forall env :: StepRecovers(s, SaveBackup(env))) <==>
      (s.disk.Verifies(Path.Backup) ==> s.disk.Verifies(Primary) || s.ram.stale || !s.disk.Exists(Primary))
  {
    if s.disk.Verifies(Path.Backup) ==> s.disk.Verifies(Primary) || s.ram.stale || !s.disk.Exists(Primary) {
      forall env ensures StepRecovers(s, SaveBackup(env)) {
        EventKeepsValue(s, SaveBackup(env));
      }
    } else {
      var r := Snapshot(s.ram, s.disk, COPY_OK);
      assert r.trail[2] == r.disk && Recovered(r.disk) == None;
      assert !StepRecovers(s, SaveBackup(COPY_OK));
    }
  }

  /** The rename of a queued one costs no value, then or at a later save, exactly if the primary is neither held nor
      stale, or the temporary file is gone or holds the value saved last. */
  lemma SnapRenameRecoversIff(s: State, r: nat)
    requires InvValue(s) && s.last.Some? && s.ram.ready && SnapOf(s, r).SnapMade?
    ensures (forall renamed ::
              StepRecovers(s, SnapRename(r, renamed)) && InvValue(Next(s, SnapRename(r, renamed)).state)) <==>
      RenameKeeps(s)
  {
    if RenameKeeps(s) {
      forall renamed
        ensures StepRecovers(s, SnapRename(r, renamed)) && InvValue(Next(s, SnapRename(r, renamed)).state)
      {
        EventKeepsValue(s, SnapRename(r, renamed));
      }
    } else {
      assert Next(s, SnapRename(r, true)).state.disk.backup == s.disk.backupTmp;
      assert !InvValue(Next(s, SnapRename(r, true)).state);
    }
  }

  /** Every item of the run meets Strict. */
  predicate RunStrict(s: State, run: seq<Item>)
    requires ValidRun(s, run)
    decreases run
  {
    run == [] || ((run[0].CutIdle? || Strict(s, run[0].event)) && RunStrict(After(s, run[0]), run[1..]))
  }

  ghost predicate AlwaysRecovers(s: State, run: seq<Item>)
    requires ValidRun(s, run)
    decreases run
  {
    run == [] || ((run[0].CutIdle? || StepRecovers(s, run[0].event)) && AlwaysRecovers(After(s, run[0]), run[1..]))
  }

  /** Over every such run a power cut costs at most the save under way, and a save that
      returns true (also one skipped as unchanged) is what a boot would then load. */
  lemma {:induction false} RunRecovers(s: State, run: seq<Item>)
    requires InvValue(s) && ValidRun(s, run) && RunStrict(s, run)
    ensures AlwaysRecovers(s, run)
    ensures InvValue(End(s, run))
    decreases run
  {
    if run != [] {
      var i := run[0];
      if !i.CutIdle? {
        EventKeepsValue(s, i.event);
      }
      hide Next, InvValue, Strict;
      assert InvValue(After(s, i)) by { CutKeepsValue(s, i); }
      RunRecovers(After(s, i), run[1..]);
    }
  }

  lemma CutKeepsValue(s: State, i: Item)
    requires InvValue(s) && Possible(s, i) && (!i.CutIdle? ==> Strict(s, i.event))
    ensures InvValue(After(s, i))
  {
    hide Next, Strict, Enabled, InvValue;
    match i
    case Do(e) => EventKeepsValue(s, e);
    case CutIn(e, at) =>
      EventKeepsValue(s, e);
      assert Next(s, e).trail[at] in Next(s, e).trail;
      RebootKeepsValue(s, Next(s, e).trail[at], DataOf(e));
    case CutIdle => RebootKeepsValue(s, s.disk, None);
  }

  lemma RebootKeepsValue(s: State, d: Disk, data: Option<Value>)
    requires InvValue(s)
    requires s.last.Some? ==> Recovered(d) == Recovered(s.disk) || (data.Some? && Recovered(d) == data)
    ensures InvValue(Rebooted(s, d))
  {
  }

  lemma TrueMeansDurable(s: State, slotHeld: bool, backupDone: bool, env: SaveEnv)
    requires InvValue(s) && s.ram.ready
    requires backupDone && s.last.Some? && BackupDue(s.ram, s.disk) ==> s.disk.backup == Whole(s.last.value)
    requires SaveStep(s.ram, s.disk, slotHeld, backupDone, env).ok
    ensures var d := SaveStep(s.ram, s.disk, slotHeld, backupDone, env).disk;
      Recovered(d).Some? && Recovered(d).value.crc == env.data.crc
  {
    SaveKeepsValue(s, slotHeld, backupDone, env);
    var o := Saved(s, slotHeld, backupDone, env);
    assert o.state.ram.hasCrc && o.state.ram.crc == env.data.crc;
  }
}
