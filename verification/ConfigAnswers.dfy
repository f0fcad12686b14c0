/** What the store's operations answer, and exactly when: a refusal leaves the disk alone, a success is what was asked
    for, and a load names the save that still has to follow. */
module ConfigAnswers {
  import opened Options
  import opened ConfigFlash
  import opened ConfigStore
  import opened ConfigRuns

  /** The backup copy through its temporary file: whole or not at all, and tidied up. */
  lemma BackupAnswers(d: Disk, env: CopyEnv)
    ensures var r := CopyReplace(d, env);
      && (r.ok <==> d.Exists(Primary) && env.copy.Copied? && env.rename)
      && (r.ok ==> r.disk == d.(backup := d.primary, backupTmp := Absent))
      && (!r.ok ==> r.disk.(backupTmp := d.backupTmp) == d && (env.remove ==> r.disk.backupTmp == Absent))
      && (!r.ok && env.copy.Refused? && !env.remove ==> r.disk == d && r.trail == [])
  {
  }

  /** A write goes through exactly if PowerGuard and the gate let it, the copy that is wanted of a primary that
      exists is made, PowerGuard still lets it, and the file opens and takes it; before that the disk is left alone. */
  lemma WriteAnswers(d: Disk, withBackup: bool, data: Value, env: WriteEnv)
    ensures var r := AtomicWrite(d, withBackup, data, env);
      var copies := withBackup && d.Exists(Primary);
      var ready := env.power && env.gate && (copies ==> env.backup.copy.Copied? && env.backup.rename);
      && (r.ok <==> ready && env.powerStill && env.open && env.write)
      && (r.ok ==> r.disk == if copies then d.(primary := Whole(data), backup := d.primary, backupTmp := Absent)
                             else d.(primary := Whole(data)))
      && (r.held <==> ready && (withBackup || env.powerStill))
      && (!env.power || !env.gate ==> r.disk == d && r.trail == [])
      && (r.disk.primary != d.primary ==> ready && env.powerStill && (env.open || env.truncated))
      && (ready && env.powerStill && !(env.open && env.write) && (env.open || env.truncated) ==> r.disk.primary == Torn)
  {
    BackupAnswers(d, env.backup);
    hide CopyReplace;
  }

  /** A restore goes through exactly if there is a backup, the gate lets it, the copy is made, and it is renamed or
      copied into place. */
  lemma RestoreAnswers(d: Disk, env: RestoreEnv)
    ensures var r := RestoreBackup(d, env);
      && (r.ok <==> d.Exists(Path.Backup) && env.gate && env.copy.Copied? && (env.rename || env.direct.Copied?))
      && (r.ok ==> r.disk.primary == d.backup && (env.rename || env.remove ==> r.disk.primaryTmp == Absent))
      && (!d.Exists(Path.Backup) || !env.gate ==> r.disk == d && r.trail == [])
      && r.disk.backup == d.backup && r.disk.backupTmp == d.backupTmp
  {
  }

  /** The primary if it verifies, else a backup that does, repaired if the restore goes through, else defaults; a
      temporary file that was left over goes. */
  lemma LoadAnswers(d: Disk, env: LoadEnv)
    ensures var r, x := LoadOrRecover(d, env), env.restore;
      && (r.outcome.OkPrimary? <==> d.Verifies(Primary))
      && (r.outcome.NeedDefaults? <==> !d.Verifies(Primary) && !d.Verifies(Path.Backup))
      && (r.outcome.OkRestoredFromBackup? <==>
            && !d.Verifies(Primary) && d.Verifies(Path.Backup)
            && x.gate && x.copy.Copied? && (x.rename || x.direct.Copied?))
      && r.found == (if d.Verifies(Primary) then d.primary else if d.Verifies(Path.Backup) then d.backup else Absent)
      && (env.removeTmp && (r.outcome.OkPrimary? || r.outcome.NeedDefaults?) ==> r.disk == d.(primaryTmp := Absent))
  {
    RestoreAnswers(Remove(d, PrimaryTmp, env.removeTmp).disk, env.restore);
    hide RestoreBackup;
  }

  /** A save touches the disk exactly if it has the lock before the restart closed the store, the state can be read, is
      valid, differs from what was saved last, the gate or the caller's slot lets it, and its secrets fit; it is true
      if that write went through, or if nothing had changed. */
  lemma SaveAnswers(ram: Ram, d: Disk, slotHeld: bool, backupDone: bool, env: SaveEnv)
    ensures var r := SaveStep(ram, d, slotHeld, backupDone, env);
      var same := ram.hasCrc && ram.crc == env.data.crc;
      var asks := env.lock && !env.closed && env.read && env.valid;
      var reaches := asks && !same && (slotHeld || env.gateFree || env.noWriter) && env.fits;
      var w := AtomicWrite(d, !backupDone && !ram.stale && !ram.held, env.data, env.write);
      && (r.ok <==> (asks && same) || (reaches && w.ok))
      && r.disk == (if reaches then w.disk else d) && r.trail == (if reaches then w.trail else [])
      && (reaches && w.ok ==>
            !r.ram.stale && !r.ram.held && !r.ram.deferred && r.ram.hasCrc && r.ram.crc == env.data.crc)
      && (!(reaches && w.ok) ==>
            && r.ram.stale == ram.stale && r.ram.hasCrc == ram.hasCrc && r.ram.crc == ram.crc
            && (r.ram.held <==> ram.held || (reaches && w.held)))
      && (r.ram.late <==> !env.lock || (env.closed && ram.late))
      && r.ram.ready == ram.ready && r.ram.loaded == ram.loaded
  {
    hide AtomicWrite;
  }

  /** The FlashWriter's first step: which of its five answers, and what is on the disk and held after it. */
  lemma FirstStepAnswers(ram: Ram, d: Disk, env: BackupEnv)
    ensures var r := BackupForSave(ram, d, env);
      var same := ram.hasCrc && ram.crc == env.data.crc;
      var copies := !ram.stale && !ram.held && d.Exists(Primary);
      var readable := env.lock && !env.paused && env.read;
      && (r.result.Busy? <==> !env.lock || (!env.paused && !env.read))
      && (r.result.Paused? <==> env.lock && env.paused)
      && (r.result.Unneeded? <==> readable && same)
      && (r.result.Made? <==> readable && !same && (copies ==> env.copy.copy.Copied? && env.copy.rename))
      && (r.result.Made? && copies ==> r.disk == d.(backup := d.primary, backupTmp := Absent))
      && (r.result.Made? && !copies ==> r.disk == d)
      && (!r.result.Made? && !r.result.Failed? ==> r.disk == d)
      && r.ram == ram.(late := ram.late && (!env.lock || env.paused), held := ram.held || r.result.Made?,
                       deferred := ram.deferred && !r.result.Unneeded?)
  {
    BackupAnswers(d, env.copy);
    hide CopyReplace;
  }

  /** What a load asks for: a reset of data that is not valid, the defaults where there is no file at all, and a save
      of valid data that is of an older form, holds a plain secret, or comes from a primary that failed; else for
      nothing. */
  lemma LoadAsks(ram: Ram, d: Disk, env: EntryLoadEnv)
    ensures var r := Load(ram, d, env);
      var found := d.Verifies(Primary) || d.Verifies(Path.Backup);
      && (r.next.Reset? <==> found && !env.valid)
      && (r.next.SaveDefaults? <==> !d.Exists(Primary) && !d.Exists(Path.Backup))
      && (r.next.Normalize? <==> found && env.valid && (env.rewrite || !d.Verifies(Primary)))
      && (!r.next.Nothing? ==> !r.ram.hasCrc)
      && (r.next.Nothing? && found && env.read.Some? ==> r.ram.hasCrc && r.ram.crc == env.read.value.crc)
      && (r.ram.loaded <==> ram.loaded || !r.next.Reset?) && r.ram.ready
      && (found ==> (r.ram.stale <==> !r.disk.Verifies(Primary)))
      && r.found == (if d.Verifies(Primary) then d.primary else if d.Verifies(Path.Backup) then d.backup else Absent)
  {
    LoadFacts(d, env.load);
    hide LoadOrRecover;
  }

  /** The save that a load asks for is not skipped: with the lock, the gate and the flash the primary then holds what
      the state reads as, in place of a primary that had failed, and a backup that was needed is left alone. */
  lemma FollowupIsWritten(ram: Ram, d: Disk, env: EntryLoadEnv, save: SaveEnv)
    requires !Load(ram, d, env).next.Nothing?
    requires save.lock && !save.closed && save.read && save.valid && save.fits && (save.gateFree || save.noWriter)
    requires var w := save.write; w.power && w.gate && w.backup.copy.Copied? && w.backup.rename && w.powerStill
    requires save.write.open && save.write.write
    ensures var l := Load(ram, d, env);
      var r := SaveStep(l.ram, l.disk, false, false, save);
      && r.ok && r.disk.primary == Whole(save.data)
      && (!d.Verifies(Primary) && d.Verifies(Path.Backup) && l.ram.stale ==> r.disk.backup == d.backup)
  {
    LoadAsks(ram, d, env);
    LoadFacts(d, env.load);
    var l := Load(ram, d, env);
    SaveAnswers(l.ram, l.disk, false, false, save);
    WriteAnswers(l.disk, !l.ram.stale && !l.ram.held, save.data, save.write);
    hide Load, SaveStep, AtomicWrite;
    LoadKeepsBackup(ram, d, env);
  }

  lemma LoadKeepsBackup(ram: Ram, d: Disk, env: EntryLoadEnv)
    ensures Load(ram, d, env).disk.backup == d.backup
  {
    LoadFacts(d, env.load);
    hide LoadOrRecover;
  }

  /** A copy is due exactly when the first step, with all going well and the state changed, would make one. */
  lemma DueIff(ram: Ram, d: Disk, data: Value)
    requires !ram.hasCrc || ram.crc != data.crc
    ensures BackupDue(ram, d) <==> BackupForSave(ram, d, BackupEnv(true, false, true, data, COPY_OK)).trail != []
  {
  }

  /** After a reset to the defaults nothing is skipped as unchanged. */
  lemma ResetIsWritten(s: State, save: SaveEnv)
    requires Enabled(s, ResetEntry)
    requires save.lock && !save.closed && save.read && save.valid && save.fits && (save.gateFree || save.noWriter)
    requires save.write == WRITE_OK
    ensures var t := Next(Next(s, ResetEntry).state, TaskSave(save)).state;
      t.disk.primary == Whole(save.data) && t.last == Some(save.data) && !t.ram.deferred && !t.ram.late
  {
    var r := Next(s, ResetEntry).state;
    SaveAnswers(r.ram, r.disk, false, false, save);
    WriteAnswers(r.disk, !r.ram.stale && !r.ram.held, save.data, save.write);
    hide SaveStep, AtomicWrite;
  }

  /** A queued Save Backup that nothing comes between leaves what one at once does. */
  lemma QueuedIsAtOnce(s: State, r: nat, env: CopyEnv)
    requires Enabled(s, SnapLook(r))
    ensures var looked := Next(s, SnapLook(r)).state;
      && Enabled(looked, SnapCopy(r, env.copy))
      && var copied := Next(looked, SnapCopy(r, env.copy)).state;
        var renamed :=
          if Enabled(copied, SnapRename(r, env.rename)) then Next(copied, SnapRename(r, env.rename)).state else copied;
        var done :=
          if Enabled(renamed, SnapTidy(r, env.remove)) then Next(renamed, SnapTidy(r, env.remove)).state else renamed;
        && done.disk == Snapshot(s.ram, s.disk, env).disk && SnapOf(done, r).NoSnap? && done.ram == s.ram
        && (Snapshot(s.ram, s.disk, env).ok <==> done == renamed)
  {
    hide Copy, Rename, Remove;
  }

  /** Save Backup at once: of a primary that exists and is not known to be stale. */
  lemma SnapshotAnswers(ram: Ram, d: Disk, env: CopyEnv)
    ensures var r := Snapshot(ram, d, env);
      && (r.ok <==> d.Exists(Primary) && !ram.stale && env.copy.Copied? && env.rename)
      && (r.ok ==> r.disk == d.(backup := d.primary, backupTmp := Absent))
      && (!d.Exists(Primary) || ram.stale ==> r.disk == d && r.trail == [])
  {
    BackupAnswers(d, env);
    hide CopyReplace;
  }

  /** What is owed is written when the FlashWriter gets to it: its check, the copy if one is due, and the second step,
      with the lock, a slot and the flash, leave the state's value on the disk and nothing owed. */
  lemma DeferredIsWritten(s: State, data: Value)
    requires Enabled(s, WriterCheck) && !(s.ram.hasCrc && s.ram.crc == data.crc)
    ensures var checked := Next(s, WriterCheck).state;
      var first := WriterBackup(BackupEnv(true, false, true, data, COPY_OK));
      var copied := if Enabled(checked, first) then Next(checked, first).state else checked;
      var second := WriterSave(SaveOf(data, true));
      && (Enabled(checked, first) <==> BackupDue(s.ram, s.disk))
      && Enabled(copied, second)
      && var done := Next(copied, second).state;
        && done.disk.primary == Whole(data) && done.last == Some(data) && done.writer.Idle?
        && !done.ram.deferred && !done.ram.late && !done.ram.held && !done.ram.stale
        && (BackupDue(s.ram, s.disk) ==> done.disk.backup == s.disk.primary)
  {
    var checked := Next(s, WriterCheck).state;
    var env := BackupEnv(true, false, true, data, COPY_OK);
    FirstStepAnswers(s.ram, s.disk, env);
    var copied := if checked.writer.Due? then Next(checked, WriterBackup(env)).state else checked;
    SaveAnswers(copied.ram, copied.disk, true, true, SaveOf(data, true));
    WriteAnswers(copied.disk, false, data, WRITE_OK);
    hide SaveStep, AtomicWrite, BackupForSave;
  }
}
