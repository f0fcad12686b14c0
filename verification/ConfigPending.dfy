/** Saves that were turned away: how long an entry still owes a write, over any run of it. */
module ConfigPending {
  import opened Options
  import opened ConfigFlash
  import opened ConfigStore
  import opened ConfigRuns

  /** A save is put off, or noted by a task that did not get the lock. */
  predicate Owed(s: State) {
    s.ram.deferred || s.ram.late
  }

  /** The save read the state and is over: invalid, unchanged, too large, or written. */
  predicate SaveSettles(s: State, slotHeld: bool, backupDone: bool, env: SaveEnv) {
    && env.lock && !env.closed && env.read
    && (|| !env.valid
        || (s.ram.hasCrc && env.data.crc == s.ram.crc)
        || ((slotHeld || env.gateFree || env.noWriter) &&
            (!env.fits || AtomicWrite(s.disk, !(backupDone || s.ram.stale || s.ram.held), env.data, env.write).ok)))
  }

  predicate Settles(s: State, e: Event) {
    match e
    case TaskSave(env) => SaveSettles(s, false, false, env)
    case FlushSave(env) => SaveSettles(s, true, false, env)
    case WriterSave(env) => SaveSettles(s, true, true, env)
    case WriterBackup(env) => env.lock && !env.paused && env.read && s.ram.hasCrc && env.data.crc == s.ram.crc
    case _ => false
  }

  /** The FlashWriter's first step takes down the note of a save that was not put off as well. */
  predicate Forgets(s: State, e: Event) {
    !s.ram.deferred && s.ram.late && e.WriterBackup? && e.backup.lock && !e.backup.paused && !Settles(s, e)
  }

  /** A save that does not get the lock, cannot read the state, meets a busy gate or fails to write is owed,
      unless the restart has closed the store. */
  lemma TurnedAwayIsOwed(s: State, slotHeld: bool, backupDone: bool, env: SaveEnv)
    requires !SaveSettles(s, slotHeld, backupDone, env) && !(env.lock && env.closed)
    ensures !SaveStep(s.ram, s.disk, slotHeld, backupDone, env).ok
    ensures Owed(Saved(s, slotHeld, backupDone, env).state)
  {
    hide AtomicWrite;
  }

  lemma SaveOwes(s: State, slotHeld: bool, backupDone: bool, env: SaveEnv)
    requires Owed(s)
    ensures Owed(Saved(s, slotHeld, backupDone, env).state) <==> !SaveSettles(s, slotHeld, backupDone, env)
    ensures s.ram.deferred && !SaveSettles(s, slotHeld, backupDone, env) ==>
      Saved(s, slotHeld, backupDone, env).state.ram.deferred
  {
    hide AtomicWrite;
  }

  lemma BackupOwes(s: State, env: BackupEnv)
    requires Owed(s)
    ensures Owed(Next(s, WriterBackup(env)).state) <==> !Settles(s, WriterBackup(env)) && !Forgets(s, WriterBackup(env))
    ensures s.ram.deferred && !Settles(s, WriterBackup(env)) ==> Next(s, WriterBackup(env)).state.ram.deferred
  {
    hide BackupPrimary;
  }

  /** What is owed stays owed exactly until it is settled, or its note is taken down by the first step. */
  lemma OwedIff(s: State, e: Event)
    requires Owed(s) && Enabled(s, e)
    ensures Owed(Next(s, e).state) <==> !Settles(s, e) && !Forgets(s, e)
    ensures s.ram.deferred && !Settles(s, e) ==> Next(s, e).state.ram.deferred
  {
    hide AtomicWrite, BackupPrimary, SaveStep, BackupForSave, LoadOrRecover;
    match e
    case TaskSave(env) => SaveOwes(s, false, false, env);
    case FlushSave(env) => SaveOwes(s, true, false, env);
    case WriterSave(env) => SaveOwes(s, true, true, env);
    case WriterBackup(env) => BackupOwes(s, env);
    case _ =>
  }

  /** No power cut, and nothing that settles a save. */
  predicate NeverSettled(s: State, run: seq<Item>)
    requires ValidRun(s, run)
    decreases run
  {
    run == [] || (run[0].Do? && !Settles(s, run[0].event) && NeverSettled(After(s, run[0]), run[1..]))
  }

  predicate NeverForgotten(s: State, run: seq<Item>)
    requires ValidRun(s, run)
    decreases run
  {
    run == [] || (run[0].Do? && !Forgets(s, run[0].event) && NeverForgotten(After(s, run[0]), run[1..]))
  }

  /** Over every run up to the next power cut: a save that was put off stays put off until a step reads the state
      and writes it, finds it unchanged, or finds that it can never be written; one that was only noted stays
      owed if besides its note is not taken down. */
  lemma {:induction false} StaysOwed(s: State, run: seq<Item>)
    requires Owed(s) && ValidRun(s, run) && NeverSettled(s, run)
    ensures s.ram.deferred ==> End(s, run).ram.deferred
    ensures NeverForgotten(s, run) ==> Owed(End(s, run))
    decreases run
  {
    if run != [] {
      OwedIff(s, run[0].event);
      var t := After(s, run[0]);
      hide Next, Settles, Forgets, Enabled;
      if Owed(t) { StaysOwed(t, run[1..]); }
    }
  }

  /** A task saves `second` while the lock is taken; the FlashWriter's first step gets the lock, but not the state. */
  function ForgottenSave(first: Value, second: Value): seq<Item> {
    [Do(LoadEntry(EntryLoadEnv(LoadEnv(true, RESTORE_OK), true, None, false))),
     Do(TaskSave(SaveOf(first, true))),
     Do(TaskSave(SaveOf(second, true).(lock := false))),
     Do(WriterCheck),
     Do(WriterBackup(BackupEnv(true, false, false, second, COPY_OK)))]
  }

  /** Then nothing is owed any more, and the disk has the first value alone. */
  lemma NoteCanBeForgotten(first: Value, second: Value)
    requires first.crc != second.crc
    ensures ValidRun(Boot(BLANK), ForgottenSave(first, second))
    ensures var s := End(Boot(BLANK), ForgottenSave(first, second));
      !Owed(s) && s.writer.Idle? && s.disk == Disk(Whole(first), Absent, Absent, Absent)
  {
    var run := ForgottenSave(first, second);
    var s1 := After(Boot(BLANK), run[0]);
    var s2 := After(s1, run[1]);
    assert s2.disk == Disk(Whole(first), Absent, Absent, Absent) && !Owed(s2);
    var s3 := After(s2, run[2]);
    var s4 := After(s3, run[3]);
    assert s4.writer.Due? && s4.ram.late && !s4.ram.deferred;
    var s5 := After(s4, run[4]);
    assert s5.writer.Idle? && s5.disk == s2.disk && !Owed(s5);
    assert Possible(s4, run[4]) && Possible(s3, run[3]) && Possible(s2, run[2]) && Possible(s1, run[1])
      && Possible(Boot(BLANK), run[0]);
    hide After, Possible, StepSafe, Owed;
    Prepend(s4, run[4], []);
    Prepend(s3, run[3], [run[4]]);
    Prepend(s2, run[2], [run[3], run[4]]);
    Prepend(s1, run[1], [run[2], run[3], run[4]]);
    Prepend(Boot(BLANK), run[0], [run[1], run[2], run[3], run[4]]);
  }
}
