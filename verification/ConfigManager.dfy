/** The store as the program has it: the manager's file helpers change the disk step by
    step, an entry's methods change its flags, and each is proved against its function. */
module ConfigManager {
  import opened Options
  import opened ConfigFlash
  import opened ConfigStore

  class Manager {
    var disk: Disk
    ghost var trail: seq<Disk>  // every state the disk went through

    constructor (d: Disk)
      ensures disk == d && trail == []
    {
      disk, trail := d, [];
    }

    /** The disk went from a state with trail `before` through r's states to r's disk. */
    ghost predicate Did(before: seq<Disk>, d: Disk, steps: seq<Disk>)
      reads this
    {
      disk == d && trail == before + steps
    }

    method Put(p: Path, f: File)
      modifies this
      ensures Did(old(trail), old(disk).Set(p, f), [old(disk).Set(p, f)])
    {
      disk := disk.Set(p, f);
      trail := trail + [disk];
    }

    method CopyFile(src: Path, dst: Path, o: CopyOutcome) returns (ok: bool)
      modifies this
      ensures var r := Copy(old(disk), src, dst, o); ok == r.ok && Did(old(trail), r.disk, r.trail)
    {
      if o.Refused? { return false; }
      if !disk.Exists(src) || o.NoSource? { return false; }
      var content := disk.Get(src);
      if o.NoTarget? { return false; }
      Put(dst, Torn);
      if o.Broken? { return false; }
      Put(dst, content);
      return true;
    }

    /** In one step dst has what tmp had, tmp is gone, and nothing else changes; or nothing changes at all. */
    method ReplaceWith(tmp: Path, dst: Path, renamed: bool) returns (ok: bool)
      modifies this
      ensures ok ==> disk.Get(tmp) == Absent && (tmp != dst ==> disk.Get(dst) == old(disk).Get(tmp))
      ensures forall p :: p != tmp && p != dst ==> disk.Get(p) == old(disk).Get(p)
      ensures ok <==> trail == old(trail) + [disk]
      ensures !ok ==> disk == old(disk) && trail == old(trail)
      ensures var r := Rename(old(disk), tmp, dst, renamed); ok == r.ok && Did(old(trail), r.disk, r.trail)
    {
      if !renamed || !disk.Exists(tmp) { return false; }
      disk := disk.Set(dst, disk.Get(tmp)).Set(tmp, Absent);
      trail := trail + [disk];
      return true;
    }

    method RemoveIfExists(p: Path, removed: bool) returns (ok: bool)
      modifies this
      ensures var r := Remove(old(disk), p, removed); ok == r.ok && Did(old(trail), r.disk, r.trail)
    {
      if !disk.Exists(p) { return true; }
      if !removed { return false; }
      Put(p, Absent);
      return true;
    }

    method CopyOver(env: CopyEnv) returns (ok: bool)
      modifies this
      ensures var r := CopyReplace(old(disk), env); ok == r.ok && Did(old(trail), r.disk, r.trail)
    {
      ok := CopyFile(Primary, BackupTmp, env.copy);
      if ok {
        ok := ReplaceWith(BackupTmp, Path.Backup, env.rename);
        if ok { return; }
      }
      var _ := RemoveIfExists(BackupTmp, env.remove);
      return false;
    }

    method KeepPrimary(wanted: bool, env: CopyEnv) returns (ok: bool)
      modifies this
      ensures var r := BackupPrimary(old(disk), wanted, env); ok == r.ok && Did(old(trail), r.disk, r.trail)
    {
      if !wanted || !disk.Exists(Primary) { return true; }
      ok := CopyOver(env);
    }

    method Write(withBackup: bool, data: Value, env: WriteEnv) returns (ok: bool, held: bool)
      modifies this
      ensures var r := AtomicWrite(old(disk), withBackup, data, env);
        ok == r.ok && held == r.held && Did(old(trail), r.disk, r.trail)
    {
      ok, held := false, false;
      if !env.power { return; }
      if !env.gate { return; }
      var kept := KeepPrimary(withBackup, env.backup);
      if !kept { return; }
      if withBackup { held := true; }
      if !env.powerStill { return; }
      held := true;
      if !env.open {
        if env.truncated { Put(Primary, Torn); }
        return;
      }
      Put(Primary, Torn);
      if !env.write { return; }
      Put(Primary, Whole(data));
      ok := true;
    }

    method CheckTmp(env: RestoreEnv)
      modifies this
      ensures var r := TestTmp(old(disk), env); Did(old(trail), r.disk, r.trail)
    {
      if env.test {
        Put(PrimaryTmp, Torn);
        var _ := RemoveIfExists(PrimaryTmp, env.removeTest);
      }
    }

    method PlaceTmp(env: RestoreEnv) returns (ok: bool)
      modifies this
      ensures var r := Place(old(disk), env); ok == r.ok && Did(old(trail), r.disk, r.trail)
    {
      ok := ReplaceWith(PrimaryTmp, Primary, env.rename);
      if !ok {
        ok := CopyFile(PrimaryTmp, Primary, env.direct);
        var _ := RemoveIfExists(PrimaryTmp, env.remove);
      }
    }

    method Restore(env: RestoreEnv) returns (ok: bool)
      modifies this
      ensures var r := RestoreBackup(old(disk), env); ok == r.ok && Did(old(trail), r.disk, r.trail)
    {
      hide Place, TestTmp, Copy;
      if !disk.Exists(Path.Backup) { return false; }
      if !env.gate { return false; }
      CheckTmp(env);
      var copied := CopyFile(Path.Backup, PrimaryTmp, env.copy);
      if !copied { return false; }
      ok := PlaceTmp(env);
    }

    method Recover(env: LoadEnv) returns (outcome: Loaded, found: File)
      modifies this
      ensures var r := LoadOrRecover(old(disk), env);
        outcome == r.outcome && found == r.found && Did(old(trail), r.disk, r.trail)
    {
      hide RestoreBackup, Remove;
      var _ := RemoveIfExists(PrimaryTmp, env.removeTmp);
      if disk.Verifies(Primary) { return OkPrimary, disk.primary; }
      if disk.Verifies(Path.Backup) {
        found := disk.backup;
        var repaired := Restore(env.restore);
        outcome := if repaired then OkRestoredFromBackup else OkBackupOnly;
        return;
      }
      return NeedDefaults, Absent;
    }
  }

  class Entry {
    const mgr: Manager
    var ready: bool
    var loaded: bool
    var deferred: bool
    var lateSave: bool
    var primaryStale: bool
    var backupHeld: bool
    var hasLastSavedCrc: bool
    var lastSavedCrc: int

    constructor (m: Manager)
      ensures mgr == m && Flags() == FRESH_RAM
    {
      mgr := m;
      ready, loaded, deferred, lateSave, primaryStale, backupHeld, hasLastSavedCrc, lastSavedCrc :=
        false, false, false, false, false, false, false, 0;
    }

    function Flags(): Ram
      reads this
    {
      Ram(ready, loaded, deferred, lateSave, primaryStale, backupHeld, hasLastSavedCrc, lastSavedCrc)
    }

    /** The flags after a write that went through, or did not. */
    method NoteWrite(ok: bool, held: bool, crc: int)
      modifies this
      ensures Flags() ==
        if ok then old(Flags()).(deferred := false, stale := false, held := false, hasCrc := true, crc := crc)
                         else old(Flags()).(deferred := true, held := old(Flags()).held || held)
    {
      if !ok {
        if held { backupHeld := true; }
        deferred := true;
      } else {
        lastSavedCrc, hasLastSavedCrc := crc, true;
        deferred, primaryStale, backupHeld := false, false, false;
      }
    }

    method WriteOut(backupDone: bool, data: Value, env: WriteEnv) returns (ok: bool)
      modifies this, mgr
      ensures var r := Commit(old(Flags()), old(mgr.disk), backupDone, data, env);
        ok == r.ok && Flags() == r.ram && mgr.Did(old(mgr.trail), r.disk, r.trail)
    {
      hide AtomicWrite;
      var held;
      ok, held := mgr.Write(!(backupDone || primaryStale || backupHeld), data, env);
      NoteWrite(ok, held, data.crc);
    }

    method Save(slotHeld: bool, backupDone: bool, env: SaveEnv) returns (ok: bool)
      modifies this, mgr
      ensures var r := SaveStep(old(Flags()), old(mgr.disk), slotHeld, backupDone, env);
        ok == r.ok && Flags() == r.ram && mgr.Did(old(mgr.trail), r.disk, r.trail)
    {
      hide Commit;
      if !env.lock {
        lateSave := true;
        return false;
      }
      if env.closed { return false; }
      lateSave := false;
      if !env.read {
        deferred := true;
        return false;
      }
      if !env.valid {
        deferred := false;
        return false;
      }
      if hasLastSavedCrc && env.data.crc == lastSavedCrc {
        deferred := false;
        return true;
      }
      if !slotHeld && !env.gateFree && !env.noWriter {
        deferred := true;
        return false;
      }
      if !env.fits {
        deferred := false;
        return false;
      }
      ok := WriteOut(backupDone, env.data, env.write);
    }

    method KeepBackup(env: BackupEnv) returns (b: Backup)
      modifies this, mgr
      ensures var r := BackupForSave(old(Flags()), old(mgr.disk), env);
        b == r.result && Flags() == r.ram && mgr.Did(old(mgr.trail), r.disk, r.trail)
    {
      if !env.lock { return Busy; }
      if env.paused { return Paused; }
      lateSave := false;
      if !env.read { return Busy; }
      if hasLastSavedCrc && env.data.crc == lastSavedCrc {
        deferred := false;
        return Unneeded;
      }
      if !primaryStale && !backupHeld {
        var copied := mgr.KeepPrimary(true, env.copy);
        if !copied { return Failed; }
      }
      backupHeld := true;
      return Made;
    }

    /** The locked part of ensureLoaded; `next` is the save it goes on to. */
    method EnsureLoaded(env: EntryLoadEnv) returns (next: Followup)
      requires !loaded
      modifies this, mgr
      ensures var r := Load(old(Flags()), old(mgr.disk), env);
        next == r.next && Flags() == r.ram && mgr.Did(old(mgr.trail), r.disk, r.trail)
    {
      var outcome, _ := mgr.Recover(env.load);
      ready := true;
      if outcome.NeedDefaults? {
        loaded := true;
        if mgr.disk.Exists(Primary) || mgr.disk.Exists(Path.Backup) { return Nothing; }
        hasLastSavedCrc := false;
        return SaveDefaults;
      }
      primaryStale := outcome.OkBackupOnly?;
      if !env.valid {
        hasLastSavedCrc := false;
        return Reset;
      }
      if env.read.Some? {
        lastSavedCrc, hasLastSavedCrc := env.read.value.crc, true;
      }
      var normalize := env.rewrite || outcome.OkRestoredFromBackup? || primaryStale;
      loaded := true;
      if normalize {
        hasLastSavedCrc := false;
        return Normalize;
      }
      return Nothing;
    }

    /** The FlashWriter's part of writeDeferred for this entry: the check and the first step. The
        second step, Save(true, true, env), comes later, under the lock again. */
    method StartDeferred(env: BackupEnv) returns (go: bool)
      modifies this, mgr
      ensures !BackupDue(old(Flags()), old(mgr.disk)) ==>
        go && Flags() == old(Flags()) && mgr.Did(old(mgr.trail), old(mgr.disk), [])
      ensures BackupDue(old(Flags()), old(mgr.disk)) ==>
        var r := BackupForSave(old(Flags()), old(mgr.disk), env);
        go == r.result.Made? && Flags() == r.ram && mgr.Did(old(mgr.trail), r.disk, r.trail)
    {
      if backupHeld || primaryStale || !mgr.disk.Exists(Primary) { return true; }
      var b := KeepBackup(env);
      return b == Made;
    }
  }
}
