/** The files of one configuration entry on the file system, and the file helpers
    of ConfigManager.cpp that change them. Every helper reports the disk states it
    passes through (`trail`): each of them is what a power cut at that instant leaves. */
module ConfigFlash {

  /** A configuration's data, with the CRC-32 of its serialised form. */
  datatype Value = Value(content: int, crc: int)

  /** What reading a path gives. Torn: present, but it fails to verify. */
  datatype File = Absent | Torn | Whole(value: Value)

  datatype Path = Primary | Backup | BackupTmp | PrimaryTmp

  datatype Disk = Disk(primary: File, backup: File, backupTmp: File, primaryTmp: File) {
    function Get(p: Path): File {
      match p
      case Primary => primary
      case Backup => backup
      case BackupTmp => backupTmp
      case PrimaryTmp => primaryTmp
    }

    function Set(p: Path, f: File): Disk {
      match p
      case Primary => this.(primary := f)
      case Backup => this.(backup := f)
      case BackupTmp => this.(backupTmp := f)
      case PrimaryTmp => this.(primaryTmp := f)
    }

    function Exists(p: Path): bool {
      !Get(p).Absent?
    }

    function Verifies(p: Path): bool {
      Get(p).Whole?
    }
  }

  /** What the environment does to a copy: the gate or PowerGuard turns it away, the
      source or the target does not open, a write fails half way, or it goes through. */
  datatype CopyOutcome = Refused | NoSource | NoTarget | Broken | Copied

  datatype CopyEnv = CopyEnv(copy: CopyOutcome, rename: bool, remove: bool)

  datatype Result = Result(ok: bool, disk: Disk, trail: seq<Disk>)

  function Copy(d: Disk, src: Path, dst: Path, o: CopyOutcome): Result {
    if !d.Exists(src) || o.Refused? || o.NoSource? || o.NoTarget? then Result(false, d, [])
    else
      var begun := d.Set(dst, Torn);
      if o.Broken? then Result(false, begun, [begun])
      else
        var done := begun.Set(dst, d.Get(src));
        Result(true, done, [begun, done])
  }

  /** LittleFS renames over an existing file in one atomic step. */
  function Rename(d: Disk, src: Path, dst: Path, ok: bool): Result {
    if !ok || !d.Exists(src) then Result(false, d, [])
    else
      var done := d.Set(dst, d.Get(src)).Set(src, Absent);
      Result(true, done, [done])
  }

  function Remove(d: Disk, p: Path, ok: bool): Result {
    if !d.Exists(p) then Result(true, d, [])
    else if !ok then Result(false, d, [])
    else Result(true, d.Set(p, Absent), [d.Set(p, Absent)])
  }

  /** The primary to the backup, through the backup's temporary file. */
  function CopyReplace(d: Disk, env: CopyEnv): Result {
    var c := Copy(d, Primary, BackupTmp, env.copy);
    var r := if c.ok then Rename(c.disk, BackupTmp, Backup, env.rename) else c.(trail := []);
    if r.ok then Result(true, r.disk, c.trail + r.trail)
    else
      var x := Remove(r.disk, BackupTmp, env.remove);
      Result(false, x.disk, c.trail + r.trail + x.trail)
  }

  function BackupPrimary(d: Disk, wanted: bool, env: CopyEnv): Result {
    if !wanted || !d.Exists(Primary) then Result(true, d, []) else CopyReplace(d, env)
  }

  /** atomicWrite's environment: PowerGuard and the gate at the start, the backup copy,
      PowerGuard again, the open (a failed one may have truncated the file) and the write. */
  datatype WriteEnv = WriteEnv(power: bool, gate: bool, backup: CopyEnv, powerStill: bool,
                               open: bool, truncated: bool, write: bool)

  /** `held`: the backup was made or the primary was opened (atomicWrite's outBackupHeld). */
  datatype WriteResult = WriteResult(ok: bool, held: bool, disk: Disk, trail: seq<Disk>)

  function AtomicWrite(d: Disk, withBackup: bool, data: Value, env: WriteEnv): WriteResult {
    if !env.power || !env.gate then WriteResult(false, false, d, [])
    else
      var b := BackupPrimary(d, withBackup, env.backup);
      if !b.ok then WriteResult(false, false, b.disk, b.trail)
      else if !env.powerStill then WriteResult(false, withBackup, b.disk, b.trail)
      else
        var torn := b.disk.Set(Primary, Torn);
        if !env.open then
          if env.truncated then WriteResult(false, true, torn, b.trail + [torn])
          else WriteResult(false, true, b.disk, b.trail)
        else if !env.write then WriteResult(false, true, torn, b.trail + [torn])
        else
          var done := torn.Set(Primary, Whole(data));
          WriteResult(true, true, done, b.trail + [torn, done])
  }

  /** restoreBackupToPrimary's environment. `test`: the temporary file could be created. */
  datatype RestoreEnv = RestoreEnv(gate: bool, test: bool, removeTest: bool, copy: CopyOutcome,
                                   rename: bool, direct: CopyOutcome, remove: bool)

  function TestTmp(d: Disk, env: RestoreEnv): Result {
    if !env.test then Result(true, d, [])
    else
      var created := d.Set(PrimaryTmp, Torn);
      var x := Remove(created, PrimaryTmp, env.removeTest);
      Result(true, x.disk, [created] + x.trail)
  }

  /** The temporary file renamed over the primary, or else copied into it. */
  function Place(d: Disk, env: RestoreEnv): Result {
    var r := Rename(d, PrimaryTmp, Primary, env.rename);
    if r.ok then r
    else
      var w := Copy(r.disk, PrimaryTmp, Primary, env.direct);
      var x := Remove(w.disk, PrimaryTmp, env.remove);
      Result(w.ok, x.disk, w.trail + x.trail)
  }

  /** The backup to the primary, whatever the backup holds. */
  function RestoreBackup(d: Disk, env: RestoreEnv): Result {
    if !d.Exists(Backup) || !env.gate then Result(false, d, [])
    else
      var t := TestTmp(d, env);
      var c := Copy(t.disk, Backup, PrimaryTmp, env.copy);
      if !c.ok then Result(false, c.disk, t.trail + c.trail)
      else
        var p := Place(c.disk, env);
        Result(p.ok, p.disk, t.trail + c.trail + p.trail)
  }

  datatype Loaded = OkPrimary | OkRestoredFromBackup | OkBackupOnly | NeedDefaults

  datatype LoadEnv = LoadEnv(removeTmp: bool, restore: RestoreEnv)

  /** `found`: the file the load result's data comes from (Absent for NeedDefaults). */
  datatype LoadResult = LoadResult(outcome: Loaded, found: File, disk: Disk, trail: seq<Disk>)

  function LoadOrRecover(d: Disk, env: LoadEnv): LoadResult {
    var x := Remove(d, PrimaryTmp, env.removeTmp);
    if x.disk.Verifies(Primary) then LoadResult(OkPrimary, x.disk.primary, x.disk, x.trail)
    else if x.disk.Verifies(Backup) then
      var r := RestoreBackup(x.disk, env.restore);
      LoadResult(if r.ok then OkRestoredFromBackup else OkBackupOnly, x.disk.backup, r.disk, x.trail + r.trail)
    else LoadResult(NeedDefaults, Absent, x.disk, x.trail)
  }

  // ---- what each helper leaves, and what it passes through --------------------

  lemma CopyReplaceFacts(d: Disk, env: CopyEnv)
    ensures var r := CopyReplace(d, env);
      && r.disk.primary == d.primary
      && r.disk.backup == (if r.ok then d.primary else d.backup)
      && (r.ok ==> d.Exists(Primary))
      && forall x :: x in r.trail ==>
          x.primary == d.primary && (x.backup == d.backup || (d.Exists(Primary) && x.backup == d.primary))
  {
  }

  lemma AtomicWriteFacts(d: Disk, withBackup: bool, data: Value, env: WriteEnv)
    ensures var r := AtomicWrite(d, withBackup, data, env);
      var kept := if withBackup && d.Exists(Primary) then d.primary else d.backup;
      && (r.ok ==> r.held && r.disk.primary == Whole(data) && r.disk.backup == kept)
      && (!r.ok && r.held ==> (r.disk.primary == d.primary || r.disk.primary == Torn) && r.disk.backup == kept)
      && (!r.held ==> r.disk.primary == d.primary && r.disk.backup == d.backup)
      && forall x :: x in r.trail ==>
           || (x.primary == d.primary && (x.backup == d.backup || x.backup == kept))
           || ((x.primary == Torn || x.primary == Whole(data)) && x.backup == kept)
  {
    CopyReplaceFacts(d, env.backup);
  }

  lemma TestTmpFacts(d: Disk, env: RestoreEnv)
    ensures var r := TestTmp(d, env);
      && r.disk.primary == d.primary && r.disk.backup == d.backup
      && forall x :: x in r.trail ==> x.primary == d.primary && x.backup == d.backup
  {
  }

  lemma PlaceFacts(d: Disk, env: RestoreEnv)
    ensures var r := Place(d, env);
      && r.disk.backup == d.backup
      && (r.ok ==> r.disk.primary == d.primaryTmp)
      && (!r.ok ==> r.disk.primary == d.primary || r.disk.primary == Torn)
      && forall x :: x in r.trail ==>
           x.backup == d.backup && (x.primary == d.primary || x.primary == Torn || x.primary == d.primaryTmp)
  {
  }

  lemma RestoreFacts(d: Disk, env: RestoreEnv)
    ensures var r := RestoreBackup(d, env);
      && r.disk.backup == d.backup
      && (r.ok ==> d.Exists(Backup) && r.disk.primary == d.backup)
      && (!r.ok ==> r.disk.primary == d.primary || r.disk.primary == Torn)
      && forall x :: x in r.trail ==>
           x.backup == d.backup && (x.primary == d.primary || x.primary == Torn || x.primary == d.backup)
  {
    hide TestTmp, Place;
    TestTmpFacts(d, env);
    PlaceFacts(Copy(TestTmp(d, env).disk, Backup, PrimaryTmp, env.copy).disk, env);
  }

  lemma LoadFacts(d: Disk, env: LoadEnv)
    ensures var r := LoadOrRecover(d, env);
      && r.disk.backup == d.backup
      && (r.outcome.OkPrimary? ==> d.primary.Whole? && r.found == d.primary && r.disk.primary == d.primary)
      && (!r.outcome.OkPrimary? ==> !d.primary.Whole?)
      && (r.outcome.NeedDefaults? <==> !d.primary.Whole? && !d.backup.Whole?)
      && (r.outcome.NeedDefaults? ==> r.found == Absent && r.disk.primary == d.primary)
      && (r.outcome.OkRestoredFromBackup? ==> r.found == d.backup == r.disk.primary)
      && (r.outcome.OkBackupOnly? ==> r.found == d.backup && !r.disk.primary.Whole?)
      && forall x :: x in r.trail ==>
           x.backup == d.backup && (x.primary == d.primary ||
              (!d.primary.Whole? && d.backup.Whole? && (x.primary == Torn || x.primary == d.backup)))
  {
    RestoreFacts(Remove(d, PrimaryTmp, env.removeTmp).disk, env.restore);
  }
}
