/** The apply transaction of src/advisor/apply.rs: plan, verify, back up, write, roll back. */
module Apply {
  import opened Wrappers
  import opened Order
  import opened Decimals
  import opened FileSystem

  datatype PlannedChange = PlannedChange(path: Path, before: string, after: string, expectedHash: string)

  datatype Plan = Plan(changes: seq<PlannedChange>, writeSet: seq<Path>)

  /** The points at which the operating system may refuse. */
  datatype Step =
    | Recheck(i: nat) | Reread(i: nat)
    | MakeBaseDir | MakeBackupDir(attempt: nat) | CopyBackup(i: nat) | WriteManifest
    | CreateTemp(i: nat) | WriteTemp(i: nat) | SyncTemp(i: nat) | StatTarget(i: nat) | ChmodTemp(i: nat)
    | RenameTemp(i: nat) | RemoveTemp(i: nat)
    | RecheckBackup(i: nat) | CopyBack(i: nat)

  /** Everything the transaction does not decide: which steps succeed, names, the hash, a synthetic failure. */
  datatype World = World(
    ok: Step -> bool, hash: string -> string, backupBase: Path, pid: nat, nonce: nat, manifest: seq<Path> -> string,
    failAfter: Option<nat>)

  datatype Outcome =
    | Success(changedFiles: seq<Path>)
    | InvalidBatch
    | BackupFailed
    | RolledBack(index: nat)
    | RecoveryFailed(index: nat)

  datatype Applied = Applied(fs: Fs, outcome: Outcome)

  // ---- Names ----

  function TempPath(target: Path, pid: nat, index: nat): Path
    requires target != []
  {
    Parent(target) + [".codexlens-apply-" + PadDigits(pid, 1) + "-" + PadDigits(index, 1) + ".tmp"]
  }

  function BackupDir(w: World, attempt: nat): Path
  {
    w.backupBase + [PadDigits(w.pid, 1) + "-" + PadDigits(w.nonce, 1) + "-" + PadDigits(attempt, 1)]
  }

  function BackupPath(dir: Path, index: nat): Path
  {
    dir + [PadDigits(index, 4) + ".bak"]
  }

  function ManifestPath(dir: Path): Path
  {
    dir + ["manifest.tsv"]
  }

  // ---- Verification before anything is touched ----

  predicate Unchanged(fs: Fs, c: PlannedChange, w: World, i: nat)
  {
    && w.ok(Recheck(i)) && w.ok(Reread(i))
    && c.path in fs.files && fs.files[c.path] == c.before && w.hash(c.before) == c.expectedHash
  }

  predicate AllUnchanged(fs: Fs, plan: Plan, w: World, n: nat)
    requires n <= |plan.changes|
  {
    forall i :: 0 <= i < n ==> Unchanged(fs, plan.changes[i], w, i)
  }

  // ---- Backups ----

  /** The first of a hundred names that is free. */
  function MakeBackupDirFrom(fs: Fs, w: World, attempt: nat): (Fs, Option<Path>)
    decreases 100 - attempt
  {
    if attempt >= 100 then (fs, None)
    else
      var dir := BackupDir(w, attempt);
      if dir in fs.dirs || dir in fs.files then MakeBackupDirFrom(fs, w, attempt + 1)
      else
        var made := CreateDir(fs, dir, w.ok(MakeBackupDir(attempt)));
        if made.ok then (made.fs, Some(dir)) else (fs, None)
  }

  function BackUp(fs: Fs, dir: Path, paths: seq<Path>, w: World): Stepped
  {
    if paths == [] then Stepped(fs, true)
    else
      var n := |paths| - 1;
      var before := BackUp(fs, dir, paths[..n], w);
      if before.ok then CopyFile(before.fs, paths[n], BackupPath(dir, n), w.ok(CopyBackup(n))) else before
  }

  // ---- Writing ----

  /** The temporary file is removed after any failure, also when opening it failed because it already existed. */
  function CleanUp(fs: Fs, temp: Path, w: World, i: nat): Stepped
  {
    Stepped(RemoveFile(fs, temp, w.ok(RemoveTemp(i))).fs, false)
  }

  function WriteChange(fs: Fs, c: PlannedChange, w: World, i: nat): Stepped
  {
    if c.path == [] then Stepped(fs, false)
    else
      var temp := TempPath(c.path, w.pid, i);
      var created := CreateNew(fs, temp, w.ok(CreateTemp(i)));
      if !created.ok then CleanUp(created.fs, temp, w, i)
      else
        var filled := Overwrite(created.fs, temp, c.after, w.ok(WriteTemp(i)));
        if !filled.ok || !w.ok(SyncTemp(i)) || c.path !in filled.fs.files || !w.ok(StatTarget(i)) || !w.ok(ChmodTemp(i))
        then CleanUp(filled.fs, temp, w, i)
        else
          var renamed := Rename(filled.fs, temp, c.path, w.ok(RenameTemp(i)));
          if renamed.ok then renamed else CleanUp(renamed.fs, temp, w, i)
  }

  datatype WriteRun = WriteRun(fs: Fs, failed: Option<nat>, restore: nat)

  /** Writes from change i on; on failure says at which change and how many backups are to be restored. */
  function WriteFrom(fs: Fs, changes: seq<PlannedChange>, w: World, i: nat): WriteRun
    requires i <= |changes|
    decreases |changes| - i
  {
    if i == |changes| then WriteRun(fs, None, 0)
    else if w.failAfter == Some(i) then WriteRun(fs, Some(i), i)
    else
      var step := WriteChange(fs, changes[i], w, i);
      if step.ok then WriteFrom(step.fs, changes, w, i + 1) else WriteRun(step.fs, Some(i), i + 1)
  }

  // ---- Rolling back ----

  function Restore(fs: Fs, dir: Path, paths: seq<Path>, w: World): Stepped
  {
    if paths == [] then Stepped(fs, true)
    else
      var n := |paths| - 1;
      var before := Restore(fs, dir, paths[..n], w);
      if !before.ok then before
      else if !w.ok(RecheckBackup(n)) || paths[n] !in before.fs.files then Stepped(before.fs, false)
      else CopyFile(before.fs, BackupPath(dir, n), paths[n], w.ok(CopyBack(n)))
  }

  // ---- The transaction ----

  function ApplyPlan(fs: Fs, plan: Plan, w: World): Applied
    requires |plan.changes| == |plan.writeSet|
  {
    if !AllUnchanged(fs, plan, w, |plan.changes|) then Applied(fs, InvalidBatch)
    else
      var (withDir, made) := if w.ok(MakeBaseDir) then MakeBackupDirFrom(fs, w, 0) else (fs, None);
      if made.None? then Applied(withDir, BackupFailed)
      else
        var dir := made.value;
        var backedUp := BackUp(withDir, dir, plan.writeSet, w);
        if !backedUp.ok then Applied(backedUp.fs, BackupFailed)
        else if !w.ok(WriteManifest) then Applied(backedUp.fs, BackupFailed)
        else
          var ready := Written(backedUp.fs, ManifestPath(dir), w.manifest(plan.writeSet));
          var run := WriteFrom(ready, plan.changes, w, 0);
          WriteFromBounds(ready, plan.changes, w, 0);
          if run.failed.None? then Applied(run.fs, Success(plan.writeSet))
          else
            var restored := Restore(run.fs, dir, plan.writeSet[..run.restore], w);
            Applied(restored.fs,
                    if restored.ok then RolledBack(run.failed.value) else RecoveryFailed(run.failed.value))
  }

  lemma {:induction false} WriteFromBounds(fs: Fs, changes: seq<PlannedChange>, w: World, i: nat)
    requires i <= |changes|
    ensures var run := WriteFrom(fs, changes, w, i);
            run.failed.Some? ==>
                i <= run.failed.value < |changes| && run.failed.value <= run.restore <= run.failed.value + 1
    decreases |changes| - i
  {
    hide WriteChange;
    if i < |changes| && w.failAfter != Some(i) {
      var step := WriteChange(fs, changes[i], w, i);
      if step.ok {
        WriteFromBounds(step.fs, changes, w, i + 1);
      }
    }
  }
}
