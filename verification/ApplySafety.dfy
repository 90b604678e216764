/** All or nothing: what the apply transaction guarantees under every pattern of failures, and exactly when. */
module ApplySafety {
  import opened Wrappers
  import opened Order
  import opened Decimals
  import opened FileSystem
  import opened Apply

  // ---- Comparing file systems ----

  predicate EqualAt(a: Fs, b: Fs, p: Path)
  {
    (p in a.files <==> p in b.files) && (p in a.files ==> a.files[p] == b.files[p])
  }

  predicate Holds(fs: Fs, p: Path, content: string)
  {
    p in fs.files && fs.files[p] == content
  }

  /** Strictly below a directory. */
  predicate Under(dir: Path, p: Path)
  {
    |dir| < |p| && p[..|dir|] == dir
  }

  /** What planning guarantees: one write-set entry per change, in the same order, and no path twice. */
  ghost predicate Aligned(plan: Plan)
  {
    && |plan.writeSet| == |plan.changes|
    && (forall i :: 0 <= i < |plan.changes| ==> plan.writeSet[i] == plan.changes[i].path)
    && (forall i, j :: 0 <= i < j < |plan.changes| ==> plan.changes[i].path != plan.changes[j].path)
  }

  ghost predicate Planned(plan: Plan, p: Path)
  {
    exists i :: 0 <= i < |plan.changes| && plan.changes[i].path == p
  }

  predicate TempExists(fs: Fs, changes: seq<PlannedChange>, w: World, i: nat)
    requires i < |changes|
  {
    changes[i].path != [] && TempPath(changes[i].path, w.pid, i) in fs.files
  }

  predicate TempIsDir(fs: Fs, changes: seq<PlannedChange>, w: World, i: nat)
    requires i < |changes|
  {
    changes[i].path != [] && TempPath(changes[i].path, w.pid, i) in fs.dirs
  }

  /**
   * From change i on, no file has the name of a temporary file, or a directory of such a name stops
   * the transaction before that file is reached.
   */
  ghost predicate NoTempFileFrom(fs: Fs, changes: seq<PlannedChange>, w: World, i: nat)
    requires i <= |changes|
  {
    forall j :: i <= j < |changes| && TempExists(fs, changes, w, j) ==>
      exists k :: i <= k < j && TempIsDir(fs, changes, w, k)
  }

  ghost predicate NoTempFiles(fs: Fs, plan: Plan, w: World)
  {
    NoTempFileFrom(fs, plan.changes, w, 0)
  }

  // ---- The backup directory ----

  lemma {:induction false} BackupDirIsNew(fs: Fs, w: World, attempt: nat)
    ensures var (after, made) := MakeBackupDirFrom(fs, w, attempt);
            && after.files == fs.files
            && after.dirs == (if made.Some? then fs.dirs + {made.value} else fs.dirs)
            && (made.Some? ==> made.value !in fs.dirs && made.value !in fs.files
                               && exists a: nat :: a < 100 && made.value == BackupDir(w, a))
    decreases 100 - attempt
  {
    if attempt < 100 {
      hide BackupDir;
      var dir := BackupDir(w, attempt);
      if dir in fs.dirs || dir in fs.files {
        BackupDirIsNew(fs, w, attempt + 1);
      }
    }
  }

  /** Nothing lies under a directory that did not exist. */
  lemma NothingUnderNewDir(fs: Fs, dir: Path, p: Path)
    requires ValidFs(fs) && dir !in fs.dirs && p in fs.files
    ensures !Under(dir, p)
  {
    if |dir| < |p| {
      assert p[..|dir|] in fs.dirs;
    }
  }

  /** A temporary file lies where its target does. */
  lemma TempNotUnder(dir: Path, target: Path, w: World, i: nat)
    requires target != [] && !Under(dir, target)
    ensures !Under(dir, TempPath(target, w.pid, i))
  {
    var temp := TempPath(target, w.pid, i);
    if |dir| < |temp| {
      assert temp[..|dir|] == target[..|dir|];
    }
  }

  lemma BackupPaths(dir: Path, i: nat, j: nat)
    ensures Under(dir, BackupPath(dir, i)) && Under(dir, ManifestPath(dir))
    ensures BackupPath(dir, i) == BackupPath(dir, j) ==> i == j
    ensures BackupPath(dir, i) != ManifestPath(dir)
  {
    var a, b := PadDigits(i, 4), PadDigits(j, 4);
    if BackupPath(dir, i) == BackupPath(dir, j) {
      assert BackupPath(dir, i)[|dir|] == BackupPath(dir, j)[|dir|];
      assert (a + ".bak")[..|a + ".bak"| - 4] == a && (b + ".bak")[..|b + ".bak"| - 4] == b;
      PadDigitsInjective(i, j, 4);
    }
    PadDigitsStart(i, 4);
    assert BackupPath(dir, i)[|dir|][0] == a[0];
    assert ManifestPath(dir)[|dir|] == "manifest.tsv";
  }

  lemma {:induction false} BackUpKeepsFiles(fs: Fs, dir: Path, paths: seq<Path>, w: World)
    requires forall i :: 0 <= i < |paths| ==> paths[i] in fs.files && !Under(dir, paths[i])
    ensures var r := BackUp(fs, dir, paths, w);
            && r.fs.dirs == fs.dirs
            && (forall p :: !Under(dir, p) ==> EqualAt(r.fs, fs, p))
            && (r.ok ==> forall i :: 0 <= i < |paths| ==> Holds(r.fs, BackupPath(dir, i), fs.files[paths[i]]))
  {
    if paths != [] {
      hide BackupPath, Under;
      var n := |paths| - 1;
      BackUpKeepsFiles(fs, dir, paths[..n], w);
      var before := BackUp(fs, dir, paths[..n], w);
      BackupPaths(dir, n, n);
      assert EqualAt(before.fs, fs, paths[n]);
      forall i | 0 <= i < n ensures BackupPath(dir, i) != BackupPath(dir, n) {
        BackupPaths(dir, i, n);
      }
    }
  }

  // ---- Writing one change ----

  /** With a free temporary name: the target alone changes, or nothing but the temporary file does. */
  lemma WriteChangeIs(fs: Fs, c: PlannedChange, w: World, i: nat)
    requires c.path in fs.files && c.path != []
    requires TempPath(c.path, w.pid, i) !in fs.files
    ensures var r := WriteChange(fs, c, w, i);
            && (r.ok ==> r.fs.files == fs.files[c.path := c.after])
            && (r.ok ==> TempPath(c.path, w.pid, i) !in fs.dirs)
            && r.fs.dirs == fs.dirs
            && (!r.ok ==> forall p :: p != TempPath(c.path, w.pid, i) ==> EqualAt(r.fs, fs, p))
  {
    hide TempPath;
  }

  /** With the temporary name taken: the write fails, and the file that was there goes if it can be removed. */
  lemma WriteChangeOverTemp(fs: Fs, c: PlannedChange, w: World, i: nat)
    requires c.path != [] && TempPath(c.path, w.pid, i) in fs.files
    ensures var r := WriteChange(fs, c, w, i);
            !r.ok && r.fs.files == if w.ok(RemoveTemp(i)) then fs.files - {TempPath(c.path, w.pid, i)} else fs.files
  {
    hide TempPath;
  }

  // ---- Writing all of them ----

  /** Changes i up to k are in place; everything else is as it was, but for the path `except`. */
  ghost predicate WrittenBetween(fs: Fs, base: Fs, changes: seq<PlannedChange>, i: nat, k: nat, except: set<Path>)
    requires i <= k <= |changes|
  {
    && (forall j :: i <= j < k ==> Holds(fs, changes[j].path, changes[j].after))
    && (forall p :: p !in except && (forall j :: i <= j < k ==> changes[j].path != p) ==> EqualAt(fs, base, p))
  }

  ghost predicate ReadyToWrite(fs: Fs, changes: seq<PlannedChange>, w: World, i: nat)
    requires i <= |changes|
  {
    && (forall j :: i <= j < |changes| ==> changes[j].path in fs.files && changes[j].path != [])
    && NoTempFileFrom(fs, changes, w, i)
    && (forall j, k :: i <= j < k < |changes| ==> changes[j].path != changes[k].path)
  }

  lemma {:induction false} WriteFromIs(fs: Fs, changes: seq<PlannedChange>, w: World, i: nat)
    requires i <= |changes| && ReadyToWrite(fs, changes, w, i)
    ensures forall j :: i <= j < |changes| ==> changes[j].path != []
    ensures var run := WriteFrom(fs, changes, w, i);
            && (run.failed.None? ==> WrittenBetween(run.fs, fs, changes, i, |changes|, {}))
            && (run.failed.Some? ==>
                  && i <= run.failed.value < |changes|
                  && TempPath(changes[run.failed.value].path, w.pid, run.failed.value) !in fs.files
                  && run.failed.value <= run.restore <= run.failed.value + 1
                  && WrittenBetween(run.fs, fs, changes, i, run.failed.value,
                                    {TempPath(changes[run.failed.value].path, w.pid, run.failed.value)}))
    decreases |changes| - i
  {
    hide TempPath, WriteChange;
    WriteFromBounds(fs, changes, w, i);
    if i < |changes| {
      assert !TempExists(fs, changes, w, i);
    }
    if i < |changes| && w.failAfter != Some(i) {
      WriteChangeIs(fs, changes[i], w, i);
      var step := WriteChange(fs, changes[i], w, i);
      if step.ok {
        assert step.fs.files.Keys == fs.files.Keys;
        assert !TempIsDir(fs, changes, w, i);
        NoTempFileNext(fs, step.fs, changes, w, i);
        WriteFromIs(step.fs, changes, w, i + 1);
        var run := WriteFrom(step.fs, changes, w, i + 1);
        WrittenExtends(fs, step.fs, run.fs, changes, i,
                       if run.failed.None? then |changes| else run.failed.value,
                       if run.failed.None? then {}
                           else {TempPath(changes[run.failed.value].path, w.pid, run.failed.value)});
      }
    }
  }

  lemma NoTempFileNext(fs: Fs, next: Fs, changes: seq<PlannedChange>, w: World, i: nat)
    requires i < |changes| && NoTempFileFrom(fs, changes, w, i) && !TempIsDir(fs, changes, w, i)
    requires next.files.Keys == fs.files.Keys && next.dirs == fs.dirs
    ensures NoTempFileFrom(next, changes, w, i + 1)
  {
    hide TempPath;
    forall j | i < j < |changes| && TempExists(next, changes, w, j)
      ensures exists k :: i < k < j && TempIsDir(next, changes, w, k)
    {
      assert TempExists(fs, changes, w, j);
      var k :| i <= k < j && TempIsDir(fs, changes, w, k);
      assert TempIsDir(next, changes, w, k);
    }
  }

  lemma WrittenExtends(
    fs: Fs, next: Fs, run: Fs, changes: seq<PlannedChange>, i: nat, k: nat, except: set<Path>)
    requires i < k <= |changes| && next.files == fs.files[changes[i].path := changes[i].after]
    requires WrittenBetween(run, next, changes, i + 1, k, except) && changes[i].path !in except
    requires forall j :: i < j < |changes| ==> changes[j].path != changes[i].path
    ensures WrittenBetween(run, fs, changes, i, k, except)
  {
    assert EqualAt(run, next, changes[i].path);
    forall p | p !in except && (forall j :: i <= j < k ==> changes[j].path != p) ensures EqualAt(run, fs, p) {
      assert changes[i].path != p;
      assert EqualAt(run, next, p);
    }
  }

  // ---- Restoring ----

  lemma {:induction false} RestoreIs(fs: Fs, dir: Path, paths: seq<Path>, contents: seq<string>, w: World)
    requires |contents| == |paths|
    requires forall i :: 0 <= i < |paths| ==> !Under(dir, paths[i]) && Holds(fs, BackupPath(dir, i), contents[i])
    requires forall i, j :: 0 <= i < j < |paths| ==> paths[i] != paths[j]
    ensures var r := Restore(fs, dir, paths, w);
            && (forall p :: p !in paths ==> EqualAt(r.fs, fs, p))
            && (r.ok ==> forall i :: 0 <= i < |paths| ==> Holds(r.fs, paths[i], contents[i]))
            && (forall i :: 0 <= i < |paths| ==> Holds(r.fs, paths[i], contents[i]) || EqualAt(r.fs, fs, paths[i]))
            && r.fs.files.Keys <= fs.files.Keys
  {
    if paths != [] {
      hide Under, BackupPath;
      var n := |paths| - 1;
      RestoreIs(fs, dir, paths[..n], contents[..n], w);
      BackupNotRestored(dir, paths, n);
      var before := Restore(fs, dir, paths[..n], w);
      assert EqualAt(before.fs, fs, BackupPath(dir, n));
    }
  }

  lemma BackupNotRestored(dir: Path, paths: seq<Path>, n: nat)
    requires forall i :: 0 <= i < |paths| ==> !Under(dir, paths[i])
    ensures BackupPath(dir, n) !in paths
  {
    BackupPaths(dir, n, n);
  }

  // ---- The transaction ----

  /** What each outcome promises about the planned files. */
  ghost predicate PlannedFilesAre(fs: Fs, plan: Plan, outcome: Outcome)
  {
    forall i :: 0 <= i < |plan.changes| ==>
      var c := plan.changes[i];
      match outcome
      case Success(_) => Holds(fs, c.path, c.after)
      case InvalidBatch => true
      case BackupFailed => Holds(fs, c.path, c.before)
      case RolledBack(_) => Holds(fs, c.path, c.before)
      case RecoveryFailed(_) => Holds(fs, c.path, c.before) || Holds(fs, c.path, c.after)
  }

  /** Files outside the write set keep their contents, and no file disappears. */
  ghost predicate OthersKept(before: Fs, after: Fs, plan: Plan)
  {
    forall p :: p in before.files && !Planned(plan, p) ==> Holds(after, p, before.files[p])
  }

  ghost predicate BackupsKept(after: Fs, plan: Plan, w: World)
  {
    exists a: nat :: a < 100 && forall i :: 0 <= i < |plan.changes| ==>
      Holds(after, BackupPath(BackupDir(w, a), i), plan.changes[i].before)
  }

  ghost predicate Safe(before: Fs, after: Applied, plan: Plan, w: World)
  {
    && (after.outcome == InvalidBatch ==> after.fs == before)
    && (after.outcome.Success? ==> after.outcome.changedFiles == plan.writeSet)
    && PlannedFilesAre(after.fs, plan, after.outcome)
    && OthersKept(before, after.fs, plan)
    && (after.outcome.Success? || after.outcome.RolledBack? || after.outcome.RecoveryFailed? ==>
          BackupsKept(after.fs, plan, w))
  }

  /** The state in which the first write starts: as verified, with every backup in place. */
  ghost predicate BackedUp(ready: Fs, fs: Fs, plan: Plan, dir: Path)
    requires Aligned(plan)
  {
    && (forall p :: !Under(dir, p) ==> EqualAt(ready, fs, p))
    && fs.dirs <= ready.dirs
    && (forall p :: p in fs.files ==> !Under(dir, p))
    && (forall i :: 0 <= i < |plan.changes| ==>
          && !Under(dir, plan.changes[i].path)
          && plan.changes[i].path != []
          && Holds(fs, plan.changes[i].path, plan.changes[i].before)
          && Holds(ready, BackupPath(dir, i), plan.changes[i].before))
  }

  lemma WritesAreSafe(ready: Fs, fs: Fs, plan: Plan, dir: Path, w: World)
    requires Aligned(plan) && BackedUp(ready, fs, plan, dir) && NoTempFiles(fs, plan, w)
    ensures var run := WriteFrom(ready, plan.changes, w, 0);
            && (run.failed.None? ==> WrittenBetween(run.fs, ready, plan.changes, 0, |plan.changes|, {}))
            && (run.failed.Some? ==>
                  var k := run.failed.value;
                  && k < |plan.changes| && k <= run.restore <= k + 1
                  && WrittenBetween(run.fs, ready, plan.changes, 0, k, {TempPath(plan.changes[k].path, w.pid, k)})
                  && !Under(dir, TempPath(plan.changes[k].path, w.pid, k))
                  && TempPath(plan.changes[k].path, w.pid, k) !in fs.files)
  {
    hide TempPath, Under, WriteFrom;
    forall j | 0 <= j < |plan.changes|
      ensures !Under(dir, TempPath(plan.changes[j].path, w.pid, j))
      ensures EqualAt(ready, fs, TempPath(plan.changes[j].path, w.pid, j)) && plan.changes[j].path in ready.files
    {
      TempNotUnder(dir, plan.changes[j].path, w, j);
      assert EqualAt(ready, fs, plan.changes[j].path);
    }
    forall j | 0 <= j < |plan.changes| && TempExists(ready, plan.changes, w, j)
      ensures exists k :: 0 <= k < j && TempIsDir(ready, plan.changes, w, k)
    {
      assert TempExists(fs, plan.changes, w, j);
      var k :| 0 <= k < j && TempIsDir(fs, plan.changes, w, k);
      assert TempIsDir(ready, plan.changes, w, k);
    }
    WriteFromIs(ready, plan.changes, w, 0);
  }

  /** Contents of the planned files before the batch, in order. */
  function Befores(plan: Plan, n: nat): seq<string>
    requires n <= |plan.changes|
  {
    seq(n, i requires 0 <= i < n => plan.changes[i].before)
  }

  lemma RollbackIsSafe(run: Fs, ready: Fs, fs: Fs, plan: Plan, dir: Path, w: World, k: nat, restore: nat, temp: Path)
    requires Aligned(plan) && BackedUp(ready, fs, plan, dir)
    requires k < |plan.changes| && k <= restore <= k + 1
    requires WrittenBetween(run, ready, plan.changes, 0, k, {temp})
    requires !Under(dir, temp) && temp !in fs.files
    ensures var r := Restore(run, dir, plan.writeSet[..restore], w);
            && PlannedFilesAre(r.fs, plan, if r.ok then RolledBack(k) else RecoveryFailed(k))
            && OthersKept(fs, r.fs, plan)
            && forall i :: 0 <= i < |plan.changes| ==> Holds(r.fs, BackupPath(dir, i), plan.changes[i].before)
  {
    hide Under, BackupPath, Restore;
    var paths := plan.writeSet[..restore];
    forall i | 0 <= i < |plan.changes| ensures Holds(run, BackupPath(dir, i), plan.changes[i].before) {
      BackupPaths(dir, i, i);
      assert EqualAt(run, ready, BackupPath(dir, i));
    }
    RestoreIs(run, dir, paths, Befores(plan, restore), w);
    var r := Restore(run, dir, paths, w);
    forall i | 0 <= i < |plan.changes| ensures Holds(r.fs, BackupPath(dir, i), plan.changes[i].before) {
      BackupNotRestored(dir, paths, i);
      assert EqualAt(r.fs, run, BackupPath(dir, i));
    }
    forall i | 0 <= i < |plan.changes|
      ensures var c := plan.changes[i];
              Holds(r.fs, c.path, c.before) || (!r.ok && Holds(r.fs, c.path, c.after))
    {
      var c := plan.changes[i];
      assert EqualAt(ready, fs, c.path) && c.path != temp;
      if i >= k {
        assert EqualAt(run, ready, c.path);
      }
      if i < restore {
        assert paths[i] == c.path;
      } else {
        assert c.path !in paths;
        assert EqualAt(r.fs, run, c.path);
      }
    }
    OthersAfterRollback(run, ready, fs, plan, dir, k, restore, temp, r.fs);
  }

  lemma OthersAfterRollback(
    run: Fs, ready: Fs, fs: Fs, plan: Plan, dir: Path, k: nat, restore: nat, temp: Path, after: Fs)
    requires Aligned(plan) && k < |plan.changes| && restore <= |plan.changes|
    requires WrittenBetween(run, ready, plan.changes, 0, k, {temp}) && temp !in fs.files
    requires forall p :: p in fs.files ==> EqualAt(ready, fs, p)
    requires forall p :: p !in plan.writeSet[..restore] ==> EqualAt(after, run, p)
    ensures OthersKept(fs, after, plan)
  {
    forall p | p in fs.files && !Planned(plan, p) ensures Holds(after, p, fs.files[p]) {
      assert EqualAt(run, ready, p);
      assert p !in plan.writeSet[..restore];
      assert EqualAt(after, run, p);
    }
  }

  // ---- Putting the phases together ----

  /** The first half of the transaction: either it stops with the planned files untouched, or writing can start. */
  lemma PreparationIsSafe(fs: Fs, plan: Plan, w: World)
    requires Aligned(plan) && ValidFs(fs) && AllUnchanged(fs, plan, w, |plan.changes|)
    ensures var (withDir, made) := MakeBackupDirFrom(fs, w, 0);
            && (forall p :: p in fs.files ==> EqualAt(withDir, fs, p))
            && (made.Some? ==>
                  var r := BackUp(withDir, made.value, plan.writeSet, w);
                  && (forall p :: p in fs.files ==> EqualAt(r.fs, fs, p))
                  && (r.ok ==> BackedUp(Written(r.fs, ManifestPath(made.value), w.manifest(plan.writeSet)), fs, plan,
                      made.value))
                  && exists a: nat :: a < 100 && made.value == BackupDir(w, a))
  {
    hide BackupPath, ManifestPath, MakeBackupDirFrom, BackUp, Under, BackupDir;
    BackupDirIsNew(fs, w, 0);
    var (withDir, made) := MakeBackupDirFrom(fs, w, 0);
    if made.Some? {
      var dir := made.value;
      forall p | p in fs.files ensures !Under(dir, p) {
        NothingUnderNewDir(fs, dir, p);
      }
      forall i | 0 <= i < |plan.changes|
          ensures plan.changes[i].path in fs.files && Holds(fs, plan.changes[i].path, plan.changes[i].before) {
        assert Unchanged(fs, plan.changes[i], w, i);
      }
      BackUpKeepsFiles(withDir, dir, plan.writeSet, w);
      ManifestIsSafe(withDir, fs, plan, dir, w);
    }
  }

  lemma ManifestIsSafe(withDir: Fs, fs: Fs, plan: Plan, dir: Path, w: World)
    requires Aligned(plan) && ValidFs(fs) && withDir.files == fs.files && fs.dirs <= withDir.dirs
    requires forall p :: p in fs.files ==> !Under(dir, p)
    requires forall i :: 0 <= i < |plan.changes| ==> Holds(fs, plan.changes[i].path, plan.changes[i].before)
    requires var r := BackUp(withDir, dir, plan.writeSet, w);
             && r.fs.dirs == withDir.dirs
             && (forall p :: !Under(dir, p) ==> EqualAt(r.fs, withDir, p))
             && (r.ok ==> forall i :: 0 <= i < |plan.writeSet| ==>
                            plan.writeSet[i] in withDir.files
                                && Holds(r.fs, BackupPath(dir, i), withDir.files[plan.writeSet[i]]))
    ensures var r := BackUp(withDir, dir, plan.writeSet, w);
            && (r.ok ==> BackedUp(Written(r.fs, ManifestPath(dir), w.manifest(plan.writeSet)), fs, plan, dir))
            && (forall p :: p in fs.files ==> EqualAt(r.fs, fs, p))
  {
    hide BackupPath, ManifestPath, BackUp, Under;
    var r := BackUp(withDir, dir, plan.writeSet, w);
    BackupPaths(dir, 0, 0);
    forall p | p in fs.files ensures EqualAt(r.fs, fs, p) {
      assert EqualAt(r.fs, withDir, p);
    }
    if r.ok {
      var ready := Written(r.fs, ManifestPath(dir), w.manifest(plan.writeSet));
      forall i | 0 <= i < |plan.changes|
        ensures plan.changes[i].path != [] && !Under(dir, plan.changes[i].path)
        ensures Holds(ready, BackupPath(dir, i), plan.changes[i].before)
      {
        BackupPaths(dir, i, i);
        assert Holds(fs, plan.changes[i].path, plan.changes[i].before);
        assert Holds(r.fs, BackupPath(dir, i), withDir.files[plan.writeSet[i]]);
      }
      forall p | !Under(dir, p) ensures EqualAt(ready, fs, p) {
        assert EqualAt(r.fs, withDir, p);
      }
    }
  }

  /**
   * All or nothing under every pattern of failures: success leaves every planned file at `after`; an error
   * other than a failed recovery leaves every one at `before`; no other file changes; backups stay.
   */
  lemma AllOrNothing(fs: Fs, plan: Plan, w: World)
    requires Aligned(plan) && ValidFs(fs) && NoTempFiles(fs, plan, w)
    ensures Safe(fs, ApplyPlan(fs, plan, w), plan, w)
  {
    hide BackupPath, ManifestPath, MakeBackupDirFrom, BackUp, Under, BackupDir, WriteFrom, Restore, TempPath,
         WrittenBetween, NoTempFiles, ValidFs;
    if AllUnchanged(fs, plan, w, |plan.changes|) {
      PreparationIsSafe(fs, plan, w);
      var (withDir, made) := MakeBackupDirFrom(fs, w, 0);
      UntouchedIsSafe(fs, fs, plan, w);
      UntouchedIsSafe(fs, withDir, plan, w);
      if w.ok(MakeBaseDir) && made.Some? {
        var dir := made.value;
        var r := BackUp(withDir, dir, plan.writeSet, w);
        UntouchedIsSafe(fs, r.fs, plan, w);
        if r.ok && w.ok(WriteManifest) {
          var ready := Written(r.fs, ManifestPath(dir), w.manifest(plan.writeSet));
          WritesAreSafe(ready, fs, plan, dir, w);
          WriteFromBounds(ready, plan.changes, w, 0);
          var run := WriteFrom(ready, plan.changes, w, 0);
          if run.failed.Some? {
            var k := run.failed.value;
            RollbackIsSafe(run.fs, ready, fs, plan, dir, w, k, run.restore, TempPath(plan.changes[k].path, w.pid, k));
          } else {
            SuccessIsSafe(run.fs, ready, fs, plan, dir);
          }
        }
      }
    }
  }

  /** Verified and not yet written: every planned file is still at `before`. */
  lemma UntouchedIsSafe(fs: Fs, after: Fs, plan: Plan, w: World)
    requires Aligned(plan) && AllUnchanged(fs, plan, w, |plan.changes|)
    requires forall p :: p in fs.files ==> EqualAt(after, fs, p)
    ensures PlannedFilesAre(after, plan, BackupFailed) && OthersKept(fs, after, plan)
  {
    forall i | 0 <= i < |plan.changes| ensures Holds(after, plan.changes[i].path, plan.changes[i].before) {
      assert Unchanged(fs, plan.changes[i], w, i);
      assert EqualAt(after, fs, plan.changes[i].path);
    }
    forall p | p in fs.files ensures Holds(after, p, fs.files[p]) {
      assert EqualAt(after, fs, p);
    }
  }

  lemma SuccessIsSafe(run: Fs, ready: Fs, fs: Fs, plan: Plan, dir: Path)
    requires Aligned(plan) && BackedUp(ready, fs, plan, dir)
    requires WrittenBetween(run, ready, plan.changes, 0, |plan.changes|, {})
    ensures PlannedFilesAre(run, plan, Success(plan.writeSet)) && OthersKept(fs, run, plan)
    ensures forall i :: 0 <= i < |plan.changes| ==> Holds(run, BackupPath(dir, i), plan.changes[i].before)
  {
    hide Under, BackupPath;
    forall i | 0 <= i < |plan.changes| ensures Holds(run, BackupPath(dir, i), plan.changes[i].before) {
      BackupPaths(dir, i, i);
      assert EqualAt(run, ready, BackupPath(dir, i));
    }
    forall p | p in fs.files && !Planned(plan, p) ensures Holds(run, p, fs.files[p]) {
      assert EqualAt(run, ready, p) && EqualAt(ready, fs, p);
    }
  }

  // ---- Exactly when: the temporary names ----

  /** The same transaction, under another pattern of failures. */
  ghost predicate SameSetting(v: World, w: World)
  {
    v == w.(ok := v.ok)
  }

  ghost predicate ContentsMatch(fs: Fs, plan: Plan, w: World)
  {
    forall i :: 0 <= i < |plan.changes| ==>
      Holds(fs, plan.changes[i].path, plan.changes[i].before)
          && w.hash(plan.changes[i].before) == plan.changes[i].expectedHash
  }

  predicate NameFree(fs: Fs, w: World, a: nat)
  {
    BackupDir(w, a) !in fs.dirs && BackupDir(w, a) !in fs.files
  }

  ghost predicate BackupNameFree(fs: Fs, w: World)
  {
    exists a: nat :: a < 100 && NameFree(fs, w, a)
  }

  function NeverFails(w: World): World
  {
    w.(ok := _ => true)
  }

  lemma {:induction false} BackupDirMadeIff(fs: Fs, w: World, attempt: nat)
    ensures MakeBackupDirFrom(fs, w, attempt).1.Some? ==> exists a: nat :: attempt <= a < 100 && NameFree(fs, w, a)
    ensures w == NeverFails(w) && (exists a: nat :: attempt <= a < 100 && NameFree(fs, w, a)) ==>
              MakeBackupDirFrom(fs, w, attempt).1.Some?
    decreases 100 - attempt
  {
    hide BackupDir;
    if attempt < 100 {
      BackupDirMadeIff(fs, w, attempt + 1);
      var dir := BackupDir(w, attempt);
      assert NameFree(fs, w, attempt) <==> dir !in fs.dirs && dir !in fs.files;
    }
  }

  lemma {:induction false} BackUpNeverFails(fs: Fs, dir: Path, paths: seq<Path>, w: World)
    requires w == NeverFails(w)
    requires forall i :: 0 <= i < |paths| ==> paths[i] in fs.files
    requires forall i: nat :: BackupPath(dir, i) !in fs.dirs
    ensures var r := BackUp(fs, dir, paths, w);
            r.ok && r.fs.dirs == fs.dirs && fs.files.Keys <= r.fs.files.Keys
  {
    if paths != [] {
      hide BackupPath;
      BackUpNeverFails(fs, dir, paths[..|paths| - 1], w);
    }
  }

  lemma {:induction false} RestoreAddsNothing(fs: Fs, dir: Path, paths: seq<Path>, w: World)
    ensures Restore(fs, dir, paths, w).fs.files.Keys <= fs.files.Keys
  {
    if paths != [] {
      hide BackupPath;
      RestoreAddsNothing(fs, dir, paths[..|paths| - 1], w);
    }
  }

  /**
   * When every step succeeds and change i is the first whose temporary name is taken, by a file, that file is deleted.
   */
  lemma {:induction false} WritesDeleteTemp(fs: Fs, changes: seq<PlannedChange>, w: World, m: nat, i: nat)
    requires m <= i < |changes| && w == NeverFails(w) && w.failAfter == None
    requires forall j :: m <= j <= i ==>
        changes[j].path in fs.files && changes[j].path !in fs.dirs && changes[j].path != []
    requires forall j :: m <= j < i ==> !TempExists(fs, changes, w, j) && !TempIsDir(fs, changes, w, j)
    requires TempExists(fs, changes, w, i)
    ensures var run := WriteFrom(fs, changes, w, m);
            run.failed == Some(i) && TempPath(changes[i].path, w.pid, i) !in run.fs.files
    decreases i - m
  {
    hide TempPath, WriteChange;
    if m == i {
      WriteChangeOverTemp(fs, changes[i], w, i);
    } else {
      assert !TempExists(fs, changes, w, m) && !TempIsDir(fs, changes, w, m);
      WriteChangeSucceeds(fs, changes[m], w, m);
      var step := WriteChange(fs, changes[m], w, m);
      assert step.fs.files.Keys == fs.files.Keys;
      assert forall j :: m < j <= i ==>
          TempExists(step.fs, changes, w, j) == TempExists(fs, changes, w, j)
          && TempIsDir(step.fs, changes, w, j) == TempIsDir(fs, changes, w, j);
      WritesDeleteTemp(step.fs, changes, w, m + 1, i);
    }
  }

  lemma WriteChangeSucceeds(fs: Fs, c: PlannedChange, w: World, i: nat)
    requires w == NeverFails(w)
    requires c.path in fs.files && c.path !in fs.dirs && c.path != []
    requires TempPath(c.path, w.pid, i) !in fs.files && TempPath(c.path, w.pid, i) !in fs.dirs
    ensures var r := WriteChange(fs, c, w, i);
            r.ok && r.fs.files == fs.files[c.path := c.after] && r.fs.dirs == fs.dirs
  {
    hide TempPath;
  }

  lemma {:induction false} FirstTempFile(fs: Fs, changes: seq<PlannedChange>, w: World, j: nat) returns (i: nat)
    requires j < |changes| && TempExists(fs, changes, w, j)
    requires forall k :: 0 <= k < j ==> !TempIsDir(fs, changes, w, k)
    ensures i < |changes| && TempExists(fs, changes, w, i)
    ensures forall k :: 0 <= k < i ==> !TempExists(fs, changes, w, k) && !TempIsDir(fs, changes, w, k)
  {
    if k: nat :| k < j && TempExists(fs, changes, w, k) {
      i := FirstTempFile(fs, changes, w, k);
    } else {
      i := j;
    }
  }

  lemma TempIsNotBackupDir(target: Path, w: World, i: nat, attempt: nat)
    requires target != []
    ensures TempPath(target, w.pid, i) != BackupDir(w, attempt)
  {
    var temp, dir := TempPath(target, w.pid, i), BackupDir(w, attempt);
    PadDigitsStart(w.pid, 1);
    assert temp[|temp| - 1][0] == '.';
    assert dir[|dir| - 1][0] == PadDigits(w.pid, 1)[0];
  }

  lemma NoBackupPathIsDir(fs: Fs, dir: Path, i: nat)
    requires ValidFs(fs) && dir !in fs.dirs
    ensures BackupPath(dir, i) !in fs.dirs && BackupPath(dir, i) != dir
  {
    assert BackupPath(dir, i)[..|dir|] == dir;
  }

  /** When no step fails, the transaction reaches its first write. */
  lemma ReachesWriting(fs: Fs, plan: Plan, v: World) returns (dir: Path, ready: Fs)
    requires Aligned(plan) && ValidFs(fs) && v == NeverFails(v)
    requires ContentsMatch(fs, plan, v) && BackupNameFree(fs, v)
    ensures AllUnchanged(fs, plan, v, |plan.changes|)
    ensures var (withDir, made) := MakeBackupDirFrom(fs, v, 0);
            && made == Some(dir)
            && var r := BackUp(withDir, dir, plan.writeSet, v);
               r.ok && ready == Written(r.fs, ManifestPath(dir), v.manifest(plan.writeSet))
    ensures BackedUp(ready, fs, plan, dir)
    ensures ready.dirs == fs.dirs + {dir} && dir !in fs.files
    ensures exists a: nat :: a < 100 && dir == BackupDir(v, a)
  {
    hide TempPath, BackupPath, ManifestPath, MakeBackupDirFrom, BackUp, BackupDir, Under, ValidFs;
    forall i | 0 <= i < |plan.changes| ensures Unchanged(fs, plan.changes[i], v, i) {
      assert Holds(fs, plan.changes[i].path, plan.changes[i].before);
    }
    BackupDirMadeIff(fs, v, 0);
    PreparationIsSafe(fs, plan, v);
    BackupDirIsNew(fs, v, 0);
    var (withDir, made) := MakeBackupDirFrom(fs, v, 0);
    dir := made.value;
    forall i: nat ensures BackupPath(dir, i) !in withDir.dirs {
      NoBackupPathIsDir(fs, dir, i);
    }
    forall i | 0 <= i < |plan.writeSet| ensures plan.writeSet[i] in withDir.files {
      assert Holds(fs, plan.changes[i].path, plan.changes[i].before);
    }
    BackUpNeverFails(withDir, dir, plan.writeSet, v);
    ready := Written(BackUp(withDir, dir, plan.writeSet, v).fs, ManifestPath(dir), v.manifest(plan.writeSet));
  }

  /** A file that has the name of a temporary file is lost in the run in which nothing else goes wrong. */
  lemma TakenTempIsLost(fs: Fs, plan: Plan, v: World)
    requires Aligned(plan) && ValidFs(fs) && v.failAfter == None && v == NeverFails(v)
    requires ContentsMatch(fs, plan, v) && BackupNameFree(fs, v) && !NoTempFiles(fs, plan, v)
    ensures !Safe(fs, ApplyPlan(fs, plan, v), plan, v)
    ensures exists i :: 0 <= i < |plan.changes| && TempExists(fs, plan.changes, v, i)
                        && TempPath(plan.changes[i].path, v.pid, i) !in ApplyPlan(fs, plan, v).fs.files
  {
    hide TempPath, BackupPath, ManifestPath, MakeBackupDirFrom, BackUp, BackupDir, WriteFrom, Restore, Under, ValidFs,
         BackedUp, AllUnchanged, Safe, ContentsMatch, BackupNameFree;
    var dir, ready := ReachesWriting(fs, plan, v);
    var j :| 0 <= j < |plan.changes| && TempExists(fs, plan.changes, v, j) &&
        !exists k :: 0 <= k < j && TempIsDir(fs, plan.changes, v, k);
    var i := FirstTempFile(fs, plan.changes, v, j);
    ReadyAsBefore(ready, fs, plan, dir, v, i);
    WritesDeleteTemp(ready, plan.changes, v, 0, i);
    var run := WriteFrom(ready, plan.changes, v, 0);
    WriteFromBounds(ready, plan.changes, v, 0);
    RestoreAddsNothing(run.fs, dir, plan.writeSet[..run.restore], v);
    LostIsUnsafe(fs, ApplyPlan(fs, plan, v), plan, v, TempPath(plan.changes[i].path, v.pid, i));
  }

  /** Process 7 applies one edit to `a.md` beside a file that happens to be called like its first temporary file. */
  lemma TakenTempHappens(hash: string -> string, manifest: seq<Path> -> string)
    ensures var temp := [".codexlens-apply-7-0.tmp"];
            var fs := Fs(map[["a.md"] := "old", temp := "kept"], {[]});
            var plan := Plan([PlannedChange(["a.md"], "old", "new", hash("old"))], [["a.md"]]);
            var w := World(step => true, hash, ["backups"], 7, 1, manifest, None);
            temp !in ApplyPlan(fs, plan, w).fs.files && !Safe(fs, ApplyPlan(fs, plan, w), plan, w)
  {
    var temp := [".codexlens-apply-7-0.tmp"];
    var fs := Fs(map[["a.md"] := "old", temp := "kept"], {[]});
    var plan := Plan([PlannedChange(["a.md"], "old", "new", hash("old"))], [["a.md"]]);
    var w := World(step => true, hash, ["backups"], 7, 1, manifest, None);
    FirstTempName();
    assert ValidFs(fs) && Aligned(plan) && ContentsMatch(fs, plan, w);
    assert NeverFails(w) == w;
    assert NameFree(fs, w, 0);
    assert TempExists(fs, plan.changes, w, 0);
    hide ApplyPlan, Safe, TempPath;
    TakenTempIsLost(fs, plan, w);
  }

  lemma FirstTempName()
    ensures TempPath(["a.md"], 7, 0) == [".codexlens-apply-7-0.tmp"]
  {
    assert PadDigits(7, 1) == "7" && PadDigits(0, 1) == "0";
    assert Parent(["a.md"]) == [];
    assert ".codexlens-apply-" + "7" + "-" + "0" + ".tmp" == ".codexlens-apply-7-0.tmp";
    assert [] + [".codexlens-apply-7-0.tmp"] == [".codexlens-apply-7-0.tmp"];
  }

  lemma LostIsUnsafe(fs: Fs, a: Applied, plan: Plan, w: World, p: Path)
    requires p in fs.files && p !in a.fs.files && (a.outcome.RolledBack? || a.outcome.RecoveryFailed?)
    ensures !Safe(fs, a, plan, w)
  {
    if Planned(plan, p) {
      var i :| 0 <= i < |plan.changes| && plan.changes[i].path == p;
      assert PlannedFilesAre(a.fs, plan, a.outcome) ==>
          Holds(a.fs, plan.changes[i].path, plan.changes[i].before)
              || Holds(a.fs, plan.changes[i].path, plan.changes[i].after);
    }
  }

  /** Backing up does not change which temporary names are taken before the first that is taken by a file. */
  lemma ReadyAsBefore(ready: Fs, fs: Fs, plan: Plan, dir: Path, w: World, i: nat)
    requires Aligned(plan) && ValidFs(fs) && i < |plan.changes| && BackedUp(ready, fs, plan, dir)
    requires ready.dirs == fs.dirs + {dir} && dir !in fs.files
    requires exists a: nat :: a < 100 && dir == BackupDir(w, a)
    requires TempExists(fs, plan.changes, w, i)
    requires forall k :: 0 <= k < i ==> !TempExists(fs, plan.changes, w, k) && !TempIsDir(fs, plan.changes, w, k)
    ensures TempExists(ready, plan.changes, w, i)
    ensures forall k :: 0 <= k < i ==> !TempExists(ready, plan.changes, w, k) && !TempIsDir(ready, plan.changes, w, k)
    ensures forall k :: 0 <= k <= i ==>
              plan.changes[k].path in ready.files && plan.changes[k].path !in ready.dirs && plan.changes[k].path != []
  {
    hide TempPath, Under, BackupPath, BackupDir;
    forall k | 0 <= k <= i
      ensures TempExists(ready, plan.changes, w, k) == TempExists(fs, plan.changes, w, k)
      ensures TempIsDir(ready, plan.changes, w, k) == TempIsDir(fs, plan.changes, w, k)
      ensures plan.changes[k].path in ready.files && plan.changes[k].path !in ready.dirs && plan.changes[k].path != []
    {
      var c := plan.changes[k];
      assert Holds(fs, c.path, c.before) && EqualAt(ready, fs, c.path);
      TempNotUnder(dir, c.path, w, k);
      assert EqualAt(ready, fs, TempPath(c.path, w.pid, k));
      var a: nat :| a < 100 && dir == BackupDir(w, a);
      TempIsNotBackupDir(c.path, w, k, a);
    }
  }

  /**
   * The transaction is safe under every pattern of failures exactly when it cannot meet a file of one of its
   * temporary names, or never gets as far as writing.
   */
  lemma SafeUnderEveryFailureIff(fs: Fs, plan: Plan, w: World)
    requires Aligned(plan) && ValidFs(fs) && w.failAfter == None
    ensures (forall v :: SameSetting(v, w) ==> Safe(fs, ApplyPlan(fs, plan, v), plan, v)) <==>
            NoTempFiles(fs, plan, w) || !ContentsMatch(fs, plan, w) || !BackupNameFree(fs, w)
  {
    hide Safe, ApplyPlan, ContentsMatch, NoTempFiles, ValidFs, BackupNameFree;
    if NoTempFiles(fs, plan, w) || !ContentsMatch(fs, plan, w) || !BackupNameFree(fs, w) {
      forall v | SameSetting(v, w) ensures Safe(fs, ApplyPlan(fs, plan, v), plan, v) {
        if NoTempFiles(fs, plan, w) {
          SameTempNames(fs, plan, v, w);
          AllOrNothing(fs, plan, v);
        } else {
          NeverWrites(fs, plan, v, w);
        }
      }
    } else {
      var v := NeverFails(w);
      SameTempNames(fs, plan, v, w);
      NeverFailsIsSameSetting(fs, plan, w);
      TakenTempIsLost(fs, plan, v);
      assert SameSetting(v, w);
    }
  }

  lemma NeverFailsIsSameSetting(fs: Fs, plan: Plan, w: World)
    ensures var v := NeverFails(w);
            && SameSetting(v, w) && v == NeverFails(v)
            && (ContentsMatch(fs, plan, v) <==> ContentsMatch(fs, plan, w))
            && (BackupNameFree(fs, v) <==> BackupNameFree(fs, w))
  {
    hide BackupDir;
    var v := NeverFails(w);
    forall a: nat ensures NameFree(fs, v, a) == NameFree(fs, w, a) {
      assert BackupDir(v, a) == BackupDir(w, a) by { SameBackupNames(v, w, a); }
    }
  }

  lemma SameTempNames(fs: Fs, plan: Plan, v: World, w: World)
    requires v.pid == w.pid
    ensures NoTempFiles(fs, plan, v) <==> NoTempFiles(fs, plan, w)
  {
    hide TempPath;
    assert forall i :: 0 <= i < |plan.changes| ==>
        TempExists(fs, plan.changes, v, i) == TempExists(fs, plan.changes, w, i)
        && TempIsDir(fs, plan.changes, v, i) == TempIsDir(fs, plan.changes, w, i);
  }

  lemma NeverWrites(fs: Fs, plan: Plan, v: World, w: World)
    requires Aligned(plan) && ValidFs(fs) && SameSetting(v, w)
    requires !ContentsMatch(fs, plan, w) || !BackupNameFree(fs, w)
    ensures Safe(fs, ApplyPlan(fs, plan, v), plan, v)
  {
    hide BackUp, WriteFrom, Restore, MakeBackupDirFrom, BackupDir, ValidFs;
    if AllUnchanged(fs, plan, v, |plan.changes|) {
      forall i | 0 <= i < |plan.changes|
        ensures Holds(fs, plan.changes[i].path, plan.changes[i].before)
        ensures w.hash(plan.changes[i].before) == plan.changes[i].expectedHash
      {
        assert Unchanged(fs, plan.changes[i], v, i);
      }
      BackupDirMadeIff(fs, v, 0);
      BackupDirIsNew(fs, v, 0);
      forall a: nat ensures NameFree(fs, v, a) == NameFree(fs, w, a) {
        assert BackupDir(v, a) == BackupDir(w, a) by { SameBackupNames(v, w, a); }
      }
      var (withDir, made) := MakeBackupDirFrom(fs, v, 0);
      UntouchedIsSafe(fs, fs, plan, v);
      UntouchedIsSafe(fs, withDir, plan, v);
    }
  }

  lemma SameBackupNames(v: World, w: World, a: nat)
    requires SameSetting(v, w)
    ensures BackupDir(v, a) == BackupDir(w, a)
  {
  }
}
