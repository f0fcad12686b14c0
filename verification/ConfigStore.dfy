/** One configuration entry: the flags it keeps in RAM and the operations that save,
    back up, load and reset it, each as a function of the entry, the disk and the
    environment's answers. */
module ConfigStore {
  import opened Options
  import opened ConfigFlash

  /** `ready`: the entry went through a load in this boot (a boot loads before it saves). */
  datatype Ram = Ram(ready: bool, loaded: bool, deferred: bool, late: bool, stale: bool, held: bool,
                     hasCrc: bool, crc: int)

  const FRESH_RAM := Ram(false, false, false, false, false, false, false, 0)

  datatype SaveEnv = SaveEnv(lock: bool, closed: bool, read: bool, data: Value, valid: bool,
                             gateFree: bool, noWriter: bool, fits: bool, write: WriteEnv)

  datatype SaveResult = SaveResult(ok: bool, ram: Ram, disk: Disk, trail: seq<Disk>)

  /** The save passes every check and reaches atomicWrite. */
  predicate Writes(ram: Ram, slotHeld: bool, env: SaveEnv) {
    && env.lock && !env.closed && env.read && env.valid
    && !(ram.hasCrc && env.data.crc == ram.crc)
    && (slotHeld || env.gateFree || env.noWriter)
    && env.fits
  }

  /** The end of a save: the write and the flags it leaves. */
  function Commit(r: Ram, d: Disk, backupDone: bool, data: Value, env: WriteEnv): SaveResult {
    var w := AtomicWrite(d, !(backupDone || r.stale || r.held), data, env);
    if w.ok then
      SaveResult(true, r.(deferred := false, stale := false, held := false, hasCrc := true, crc := data.crc),
                 w.disk, w.trail)
    else SaveResult(false, r.(deferred := true, held := r.held || w.held), w.disk, w.trail)
  }

  function SaveStep(ram: Ram, d: Disk, slotHeld: bool, backupDone: bool, env: SaveEnv): SaveResult {
    if !env.lock then SaveResult(false, ram.(late := true), d, [])
    else if env.closed then SaveResult(false, ram, d, [])
    else
      var r := ram.(late := false);
      if !env.read then SaveResult(false, r.(deferred := true), d, [])
      else if !env.valid then SaveResult(false, r.(deferred := false), d, [])
      else if r.hasCrc && env.data.crc == r.crc then SaveResult(true, r.(deferred := false), d, [])
      else if !slotHeld && !env.gateFree && !env.noWriter then SaveResult(false, r.(deferred := true), d, [])
      else if !env.fits then SaveResult(false, r.(deferred := false), d, [])
      else Commit(r, d, backupDone, env.data, env.write)
  }

  datatype BackupEnv = BackupEnv(lock: bool, paused: bool, read: bool, data: Value, copy: CopyEnv)

  datatype Backup = Unneeded | Made | Paused | Busy | Failed

  datatype BackupResult = BackupResult(result: Backup, ram: Ram, disk: Disk, trail: seq<Disk>)

  function BackupForSave(ram: Ram, d: Disk, env: BackupEnv): BackupResult {
    if !env.lock then BackupResult(Busy, ram, d, [])
    else if env.paused then BackupResult(Paused, ram, d, [])
    else
      var r := ram.(late := false);
      if !env.read then BackupResult(Busy, r, d, [])
      else if r.hasCrc && env.data.crc == r.crc then BackupResult(Unneeded, r.(deferred := false), d, [])
      else
        var b := BackupPrimary(d, !r.stale && !r.held, env.copy);
        if b.ok then BackupResult(Made, r.(held := true), b.disk, b.trail)
        else BackupResult(Failed, r, b.disk, b.trail)
  }

  /** The FlashWriter's test, made without the lock, of whether that first step has a copy to make. */
  predicate BackupDue(ram: Ram, d: Disk) {
    !ram.held && !ram.stale && d.Exists(Primary)
  }

  /** `read`: what the state reader gives after the loaded data is applied (None: its lock timed out).
      `rewrite`: the file is legacy, has no meta, or holds a plaintext secret. */
  datatype EntryLoadEnv = EntryLoadEnv(load: LoadEnv, valid: bool, read: Option<Value>, rewrite: bool)

  /** What a load still asks for, after the lock is given back. */
  datatype Followup = Nothing | SaveDefaults | Normalize | Reset

  datatype EntryLoadResult = EntryLoadResult(next: Followup, found: File, ram: Ram, disk: Disk, trail: seq<Disk>)

  /** The part of ensureLoaded under the lock. */
  function Load(ram: Ram, d: Disk, env: EntryLoadEnv): EntryLoadResult {
    var l := LoadOrRecover(d, env.load);
    var r := ram.(ready := true);
    if l.outcome.NeedDefaults? then
      if l.disk.Exists(Primary) || l.disk.Exists(Path.Backup) then
        EntryLoadResult(Nothing, Absent, r.(loaded := true), l.disk, l.trail)
      else EntryLoadResult(SaveDefaults, Absent, r.(loaded := true, hasCrc := false), l.disk, l.trail)
    else
      var s := r.(stale := l.outcome.OkBackupOnly?);
      if !env.valid then EntryLoadResult(Reset, l.found, s.(hasCrc := false), l.disk, l.trail)
      else
        var c := if env.read.Some? then s.(hasCrc := true, crc := env.read.value.crc) else s;
        if env.rewrite || l.outcome.OkRestoredFromBackup? || s.stale then
          EntryLoadResult(Normalize, l.found, c.(loaded := true, hasCrc := false), l.disk, l.trail)
        else EntryLoadResult(Nothing, l.found, c.(loaded := true), l.disk, l.trail)
  }

  /** Save Backup's copy of one entry (snapshotLocked): any primary that is not known to be stale. */
  function Snapshot(ram: Ram, d: Disk, env: CopyEnv): Result {
    if !d.Exists(Primary) || ram.stale then Result(false, d, []) else CopyReplace(d, env)
  }
}
