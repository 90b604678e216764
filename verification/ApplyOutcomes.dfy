/** Which outcome an apply transaction has, told by the steps that fail, src/advisor/apply.rs. */
module ApplyOutcomes {
  import opened Wrappers
  import opened Order
  import opened Decimals
  import opened FileSystem
  import opened Apply
  import opened ApplySafety

  // ---- The steps ----

  /** The target could be checked and read, and is as planned. */
  predicate Verified(fs: Fs, c: PlannedChange, w: World, i: nat)
  {
    && w.ok(Recheck(i)) && w.ok(Reread(i))
    && c.path in fs.files && fs.files[c.path] == c.before && c.expectedHash == w.hash(c.before)
  }

  ghost predicate AllVerified(fs: Fs, plan: Plan, w: World)
  {
    forall i: nat :: i < |plan.changes| ==> Verified(fs, plan.changes[i], w, i)
  }

  /** The first of the hundred names that is free can be made a directory, and every file copied into it. */
  ghost predicate CanBackUp(fs: Fs, plan: Plan, w: World)
  {
    && w.ok(MakeBaseDir) && CanMakeDir(fs, w, 0) && w.ok(WriteManifest)
    && forall i: nat :: i < |plan.changes| ==> w.ok(CopyBackup(i))
  }

  ghost predicate CanMakeDir(fs: Fs, w: World, start: nat)
  {
    exists a: nat :: start <= a < 100 && NameFree(fs, w, a) && w.ok(MakeBackupDir(a))
                     && forall b: nat :: start <= b < a ==> !NameFree(fs, w, b)
  }

  /** No step of writing change i fails; the name of its temporary file is free. */
  predicate CanWrite(fs: Fs, c: PlannedChange, w: World, i: nat)
  {
    && c.path != [] && w.failAfter != Some(i)
    && TempPath(c.path, w.pid, i) !in fs.files && TempPath(c.path, w.pid, i) !in fs.dirs
    && w.ok(CreateTemp(i)) && w.ok(WriteTemp(i)) && w.ok(SyncTemp(i)) && w.ok(StatTarget(i)) && w.ok(ChmodTemp(i))
    && w.ok(RenameTemp(i))
  }

  /** Change i is the first that cannot be written. */
  ghost predicate StopsAt(fs: Fs, changes: seq<PlannedChange>, w: World, i: nat)
  {
    i < |changes| && !CanWrite(fs, changes[i], w, i) && forall j: nat :: j < i ==> CanWrite(fs, changes[j], w, j)
  }

  ghost predicate AllWritten(fs: Fs, changes: seq<PlannedChange>, w: World)
  {
    forall j: nat :: j < |changes| ==> CanWrite(fs, changes[j], w, j)
  }

  /** The first n targets can be restored. */
  predicate CanRestore(w: World, n: nat)
  {
    forall j :: 0 <= j < n ==> w.ok(RecheckBackup(j)) && w.ok(CopyBack(j))
  }

  /** A change that was only about to be written is not restored, one whose writing began is. */
  function ToRestore(w: World, i: nat): nat
  {
    if w.failAfter == Some(i) then i else i + 1
  }

  ghost predicate IsOutcome(fs: Fs, plan: Plan, w: World, outcome: Outcome)
  {
    match outcome
    case InvalidBatch => !AllVerified(fs, plan, w)
    case BackupFailed => AllVerified(fs, plan, w) && !CanBackUp(fs, plan, w)
    case Success(changed) =>
      AllVerified(fs, plan, w) && CanBackUp(fs, plan, w) && AllWritten(fs, plan.changes, w) && changed == plan.writeSet
    case RolledBack(i) =>
      && AllVerified(fs, plan, w) && CanBackUp(fs, plan, w) && StopsAt(fs, plan.changes, w, i)
      && CanRestore(w, ToRestore(w, i))
    case RecoveryFailed(i) =>
      && AllVerified(fs, plan, w) && CanBackUp(fs, plan, w) && StopsAt(fs, plan.changes, w, i)
      && !CanRestore(w, ToRestore(w, i))
  }

  // ---- Backing up ----

  lemma {:induction false} DirIsMadeIff(fs: Fs, w: World, start: nat)
    ensures MakeBackupDirFrom(fs, w, start).1.Some? <==> CanMakeDir(fs, w, start)
    decreases 100 - start
  {
    hide BackupDir;
    if start < 100 {
      DirIsMadeIff(fs, w, start + 1);
      var dir := BackupDir(w, start);
      assert NameFree(fs, w, start) <==> dir !in fs.dirs && dir !in fs.files;
      hide MakeBackupDirFrom, NameFree;
      if CanMakeDir(fs, w, start + 1) && !NameFree(fs, w, start) {
        var a: nat :| start + 1 <= a < 100 && NameFree(fs, w, a) && w.ok(MakeBackupDir(a))
                      && forall b: nat :: start + 1 <= b < a ==> !NameFree(fs, w, b);
        assert start <= a;
      }
      if CanMakeDir(fs, w, start) {
        var a: nat :| start <= a < 100 && NameFree(fs, w, a) && w.ok(MakeBackupDir(a))
                      && forall b: nat :: start <= b < a ==> !NameFree(fs, w, b);
        assert a == start || start + 1 <= a;
      }
    }
  }

  lemma {:induction false} BackedUpIff(fs: Fs, dir: Path, paths: seq<Path>, w: World)
    requires forall i :: 0 <= i < |paths| ==> paths[i] in fs.files && !Under(dir, paths[i])
    requires forall i: nat :: BackupPath(dir, i) !in fs.dirs
    ensures var r := BackUp(fs, dir, paths, w);
            && (r.ok <==> forall i :: 0 <= i < |paths| ==> w.ok(CopyBackup(i)))
            && r.fs.dirs == fs.dirs
  {
    if paths != [] {
      hide BackupPath, Under;
      var n := |paths| - 1;
      BackedUpIff(fs, dir, paths[..n], w);
      BackUpKeepsFiles(fs, dir, paths[..n], w);
      assert EqualAt(BackUp(fs, dir, paths[..n], w).fs, fs, paths[n]);
    }
  }

  // ---- Writing ----

  lemma WritesOneIff(fs: Fs, c: PlannedChange, w: World, i: nat)
    requires c.path in fs.files && c.path !in fs.dirs && w.failAfter != Some(i)
    ensures var r := WriteChange(fs, c, w, i);
            && (r.ok <==> CanWrite(fs, c, w, i))
            && (r.ok ==> r.fs.files == fs.files[c.path := c.after] && r.fs.dirs == fs.dirs)
  {
    hide TempPath;
  }

  ghost predicate StopsFrom(fs: Fs, changes: seq<PlannedChange>, w: World, start: nat, i: nat)
  {
    && start <= i < |changes| && !CanWrite(fs, changes[i], w, i)
    && forall j: nat :: start <= j < i ==> CanWrite(fs, changes[j], w, j)
  }

  lemma {:induction false} WritesUpTo(fs: Fs, changes: seq<PlannedChange>, w: World, start: nat)
    requires start <= |changes|
    requires forall j :: 0 <= j < |changes| ==> changes[j].path in fs.files && changes[j].path !in fs.dirs
    ensures var run := WriteFrom(fs, changes, w, start);
            match run.failed
            case Some(i) => StopsFrom(fs, changes, w, start, i) && run.restore == ToRestore(w, i)
            case None => forall j: nat :: start <= j < |changes| ==> CanWrite(fs, changes[j], w, j)
    decreases |changes| - start
  {
    hide WriteChange, CanWrite;
    if start < |changes| {
      if w.failAfter == Some(start) {
        NotWrittenThen(fs, changes[start], w, start);
      } else {
        WritesOneIff(fs, changes[start], w, start);
        var step := WriteChange(fs, changes[start], w, start);
        if step.ok {
          WritesUpTo(step.fs, changes, w, start + 1);
          forall j: nat | j < |changes|
            ensures CanWrite(step.fs, changes[j], w, j) <==> CanWrite(fs, changes[j], w, j) {
            SameNames(fs, step.fs, changes[start], changes[j], w, j);
          }
        }
      }
    }
  }

  lemma NotWrittenThen(fs: Fs, c: PlannedChange, w: World, i: nat)
    requires w.failAfter == Some(i)
    ensures !CanWrite(fs, c, w, i)
  {
  }

  lemma SameNames(fs: Fs, next: Fs, d: PlannedChange, c: PlannedChange, w: World, j: nat)
    requires d.path in fs.files && next.files == fs.files[d.path := d.after] && next.dirs == fs.dirs
    ensures CanWrite(next, c, w, j) <==> CanWrite(fs, c, w, j)
  {
    hide TempPath;
  }

  // ---- Restoring ----

  lemma {:induction false} RestoresIff(fs: Fs, dir: Path, paths: seq<Path>, w: World)
    requires forall i :: 0 <= i < |paths| ==>
               paths[i] in fs.files && paths[i] !in fs.dirs && BackupPath(dir, i) in fs.files
    ensures var r := Restore(fs, dir, paths, w);
            (r.ok <==> CanRestore(w, |paths|)) && r.fs.files.Keys == fs.files.Keys && r.fs.dirs == fs.dirs
  {
    if paths != [] {
      hide BackupPath;
      RestoresIff(fs, dir, paths[..|paths| - 1], w);
    }
  }

  /** The first n targets can be restored, and the next one, if there is one, cannot. */
  predicate RestoringEndsAt(w: World, n: nat, all: nat)
  {
    n <= all && CanRestore(w, n) && (n < all ==> !(w.ok(RecheckBackup(n)) && w.ok(CopyBack(n))))
  }

  lemma {:induction false} BackupStays(fs: Fs, dir: Path, paths: seq<Path>, w: World, i: nat)
    requires forall k :: 0 <= k < |paths| ==> !Under(dir, paths[k])
    ensures EqualAt(Restore(fs, dir, paths, w).fs, fs, BackupPath(dir, i))
  {
    hide BackupPath, Under;
    if paths != [] {
      var n := |paths| - 1;
      BackupStays(fs, dir, paths[..n], w, i);
      BackupPaths(dir, i, i);
      assert paths[n] != BackupPath(dir, i);
      var before := Restore(fs, dir, paths[..n], w);
      var after := Restore(fs, dir, paths, w);
      assert EqualAt(before.fs, fs, BackupPath(dir, i));
      assert EqualAt(after.fs, before.fs, BackupPath(dir, i));
    }
  }

  /** What restoring the first n of these files leaves. */
  ghost predicate RestoredAre(after: Fs, fs: Fs, paths: seq<Path>, contents: seq<string>, n: nat)
    requires n <= |paths| == |contents|
  {
    && (forall i :: 0 <= i < n ==> Holds(after, paths[i], contents[i]))
    && (forall p :: (forall i :: 0 <= i < n ==> paths[i] != p) ==> EqualAt(after, fs, p))
  }

  lemma RestoredOneMore(before: Fs, fs: Fs, paths: seq<Path>, contents: seq<string>, n: nat, from: Path)
    requires n < |paths| == |contents| && RestoredAre(before, fs, paths, contents, n)
    requires Holds(before, from, contents[n])
    requires forall i :: 0 <= i < n ==> paths[i] != paths[n]
    ensures RestoredAre(Written(before, paths[n], before.files[from]), fs, paths, contents, n + 1)
  {
    var after := Written(before, paths[n], before.files[from]);
    forall p | forall i :: 0 <= i < n + 1 ==> paths[i] != p ensures EqualAt(after, fs, p) {
      assert paths[n] != p;
      assert EqualAt(before, fs, p);
    }
  }

  lemma RestoredPrefix(after: Fs, fs: Fs, paths: seq<Path>, contents: seq<string>, m: nat, n: nat)
    requires n <= m <= |paths| == |contents| && RestoredAre(after, fs, paths[..m], contents[..m], n)
    ensures RestoredAre(after, fs, paths, contents, n)
  {
    assert forall i :: 0 <= i < n ==> paths[..m][i] == paths[i] && contents[..m][i] == contents[i];
    forall p | forall i :: 0 <= i < n ==> paths[i] != p ensures EqualAt(after, fs, p) {
      assert forall i :: 0 <= i < n ==> paths[..m][i] != p;
    }
  }

  ghost predicate CanBeRestored(fs: Fs, dir: Path, paths: seq<Path>, contents: seq<string>)
  {
    && |contents| == |paths|
    && (forall i :: 0 <= i < |paths| ==>
          && paths[i] in fs.files && paths[i] !in fs.dirs && !Under(dir, paths[i])
          && Holds(fs, BackupPath(dir, i), contents[i]))
    && forall i, j :: 0 <= i < j < |paths| ==> paths[i] != paths[j]
  }

  lemma RestoreStep(fs: Fs, dir: Path, paths: seq<Path>, contents: seq<string>, w: World)
    requires paths != [] && CanBeRestored(fs, dir, paths, contents)
    ensures var last := |paths| - 1;
            var before, after := Restore(fs, dir, paths[..last], w), Restore(fs, dir, paths, w);
            && CanBeRestored(fs, dir, paths[..last], contents[..last])
            && Holds(before.fs, BackupPath(dir, last), contents[last])
            && after == if before.ok && w.ok(RecheckBackup(last)) && w.ok(CopyBack(last)) then
                 Stepped(Written(before.fs, paths[last], before.fs.files[BackupPath(dir, last)]), true)
               else Stepped(before.fs, false)
  {
    hide BackupPath, Under;
    var last := |paths| - 1;
    BackupStays(fs, dir, paths[..last], w, last);
    RestoresIff(fs, dir, paths[..last], w);
    assert EqualAt(Restore(fs, dir, paths[..last], w).fs, fs, BackupPath(dir, last));
  }

  lemma PathsApart(fs: Fs, dir: Path, paths: seq<Path>, contents: seq<string>)
    requires CanBeRestored(fs, dir, paths, contents)
    ensures |contents| == |paths| && forall i, j :: 0 <= i < j < |paths| ==> paths[i] != paths[j]
  {
    hide Holds, Under, BackupPath;
  }

  lemma NothingRestored(fs: Fs, dir: Path, w: World)
    ensures Restore(fs, dir, [], w) == Stepped(fs, true) && RestoredAre(fs, fs, [], [], 0)
  {
  }

  lemma EndsOneFurther(w: World, n: nat, last: nat)
    requires RestoringEndsAt(w, n, last)
    ensures var more := n == last && w.ok(RecheckBackup(last)) && w.ok(CopyBack(last));
            n <= last && RestoringEndsAt(w, if more then last + 1 else n, last + 1)
  {
  }

  /** Backups are copied back in order: up to the first that fails, and none after it. */
  lemma {:induction false} RestoredUpTo(fs: Fs, dir: Path, paths: seq<Path>, contents: seq<string>, w: World)
    returns (n: nat)
    requires CanBeRestored(fs, dir, paths, contents)
    ensures RestoringEndsAt(w, n, |paths|) && n <= |paths| == |contents|
    ensures var r := Restore(fs, dir, paths, w); (r.ok <==> n == |paths|) && RestoredAre(r.fs, fs, paths, contents, n)
  {
    hide *;
    PathsApart(fs, dir, paths, contents);
    if paths == [] {
      n := 0;
      assert contents == [];
      NothingRestored(fs, dir, w);
      NothingEnds(w);
    } else {
      var last := |paths| - 1;
      RestoreStep(fs, dir, paths, contents, w);
      n := RestoredUpTo(fs, dir, paths[..last], contents[..last], w);
      var before := Restore(fs, dir, paths[..last], w);
      RestoredPrefix(before.fs, fs, paths, contents, last, n);
      EndsOneFurther(w, n, last);
      if n == last && w.ok(RecheckBackup(last)) && w.ok(CopyBack(last)) {
        RestoredOneMore(before.fs, fs, paths, contents, last, BackupPath(dir, last));
        n := last + 1;
      }
    }
  }

  lemma NothingEnds(w: World)
    ensures RestoringEndsAt(w, 0, 0)
  {
  }

  // ---- What is there after the writes ----

  lemma OnlyTempComesOrGoes(fs: Fs, c: PlannedChange, w: World, i: nat)
    requires c.path in fs.files && c.path != []
    ensures var r := WriteChange(fs, c, w, i);
            && r.fs.dirs == fs.dirs
            && forall p :: p != TempPath(c.path, w.pid, i) ==> (p in r.fs.files <==> p in fs.files)
  {
    hide TempPath;
  }

  lemma {:induction false} SameFilesAfter(fs: Fs, changes: seq<PlannedChange>, w: World, start: nat)
    requires start <= |changes|
    requires forall j :: 0 <= j < |changes| ==> changes[j].path in fs.files && changes[j].path != []
    requires forall i, j :: 0 <= i < |changes| && 0 <= j < |changes| ==>
               TempPath(changes[i].path, w.pid, i) != changes[j].path
    ensures var run := WriteFrom(fs, changes, w, start);
            && run.fs.dirs == fs.dirs
            && forall p :: (forall i :: 0 <= i < |changes| ==> p != TempPath(changes[i].path, w.pid, i)) ==>
                 (p in run.fs.files <==> p in fs.files)
    decreases |changes| - start
  {
    hide WriteChange, TempPath;
    if start < |changes| && w.failAfter != Some(start) {
      OnlyTempComesOrGoes(fs, changes[start], w, start);
      var step := WriteChange(fs, changes[start], w, start);
      if step.ok {
        SameFilesAfter(step.fs, changes, w, start + 1);
      }
    }
  }

  // ---- The transaction ----

  /** No target is called like a temporary file of the transaction. */
  ghost predicate TempsApart(plan: Plan, w: World)
  {
    forall i, j :: 0 <= i < |plan.changes| && 0 <= j < |plan.changes| && plan.changes[i].path != [] ==>
      TempPath(plan.changes[i].path, w.pid, i) != plan.changes[j].path
  }

  lemma VerifiedIs(fs: Fs, plan: Plan, w: World)
    ensures AllUnchanged(fs, plan, w, |plan.changes|) <==> AllVerified(fs, plan, w)
  {
    forall i: nat | i < |plan.changes| ensures Unchanged(fs, plan.changes[i], w, i) <==>
                                               Verified(fs, plan.changes[i], w, i) {
    }
    hide Unchanged, Verified;
  }

  ghost predicate IsReady(ready: Fs, fs: Fs, plan: Plan, dir: Path)
    requires Aligned(plan)
  {
    BackedUp(ready, fs, plan, dir) && ready.dirs == fs.dirs + {dir} && dir !in fs.files
  }

  /** Writing starts exactly when everything could be backed up. */
  lemma ReadyIff(fs: Fs, plan: Plan, w: World)
    requires Aligned(plan) && ValidFs(fs) && AllUnchanged(fs, plan, w, |plan.changes|)
    ensures CanBackUp(fs, plan, w) <==>
            && w.ok(MakeBaseDir) && MakeBackupDirFrom(fs, w, 0).1.Some? && w.ok(WriteManifest)
            && BackUp(MakeBackupDirFrom(fs, w, 0).0, MakeBackupDirFrom(fs, w, 0).1.value, plan.writeSet, w).ok
    ensures CanBackUp(fs, plan, w) ==>
              var dir := MakeBackupDirFrom(fs, w, 0).1.value;
              && (exists a: nat :: dir == BackupDir(w, a))
              && IsReady(Written(BackUp(MakeBackupDirFrom(fs, w, 0).0, dir, plan.writeSet, w).fs, ManifestPath(dir),
                                 w.manifest(plan.writeSet)), fs, plan, dir)
  {
    hide BackupPath, ManifestPath, MakeBackupDirFrom, BackUp, Under, BackupDir, CanMakeDir, ValidFs, BackedUp;
    PreparationIsSafe(fs, plan, w);
    DirIsMadeIff(fs, w, 0);
    BackupDirIsNew(fs, w, 0);
    var (withDir, made) := MakeBackupDirFrom(fs, w, 0);
    if made.Some? {
      var dir := made.value;
      forall i: nat ensures BackupPath(dir, i) !in withDir.dirs {
        NoBackupPathIsDir(fs, dir, i);
      }
      forall i | 0 <= i < |plan.writeSet| ensures plan.writeSet[i] in withDir.files && !Under(dir, plan.writeSet[i]) {
        assert Unchanged(fs, plan.changes[i], w, i);
        NothingUnderNewDir(fs, dir, plan.writeSet[i]);
      }
      BackedUpIff(withDir, dir, plan.writeSet, w);
    }
  }

  lemma NamesBeforeAndReady(ready: Fs, fs: Fs, plan: Plan, dir: Path, w: World, a: nat)
    requires Aligned(plan) && ValidFs(fs) && IsReady(ready, fs, plan, dir) && dir == BackupDir(w, a)
    ensures forall j: nat :: j < |plan.changes| ==>
              && plan.changes[j].path in ready.files && plan.changes[j].path !in ready.dirs
              && plan.changes[j].path != []
              && (CanWrite(ready, plan.changes[j], w, j) <==> CanWrite(fs, plan.changes[j], w, j))
  {
    hide TempPath, BackupDir, Under, BackupPath;
    forall j: nat | j < |plan.changes|
      ensures plan.changes[j].path in ready.files && plan.changes[j].path !in ready.dirs && plan.changes[j].path != []
      ensures CanWrite(ready, plan.changes[j], w, j) <==> CanWrite(fs, plan.changes[j], w, j)
    {
      var c := plan.changes[j];
      TempNotUnder(dir, c.path, w, j);
      TempIsNotBackupDir(c.path, w, j, a);
      assert EqualAt(ready, fs, c.path) && EqualAt(ready, fs, TempPath(c.path, w.pid, j));
    }
  }

  lemma RestoredIff(ready: Fs, fs: Fs, plan: Plan, dir: Path, w: World, a: nat)
    requires Aligned(plan) && ValidFs(fs) && IsReady(ready, fs, plan, dir) && dir == BackupDir(w, a)
    requires TempsApart(plan, w)
    ensures var run := WriteFrom(ready, plan.changes, w, 0);
            run.restore <= |plan.writeSet| ==>
              (Restore(run.fs, dir, plan.writeSet[..run.restore], w).ok <==> CanRestore(w, run.restore))
  {
    NamesBeforeAndReady(ready, fs, plan, dir, w, a);
    hide WriteFrom, TempPath, BackupDir, Restore, CanWrite, CanRestore, ValidFs;
    SameFilesAfter(ready, plan.changes, w, 0);
    var run := WriteFrom(ready, plan.changes, w, 0);
    if run.restore <= |plan.writeSet| {
      var paths := plan.writeSet[..run.restore];
      forall i | 0 <= i < |paths|
        ensures paths[i] in run.fs.files && paths[i] !in run.fs.dirs && BackupPath(dir, i) in run.fs.files
      {
        assert paths[i] == plan.changes[i].path;
        BackupIsNoTemp(ready, fs, plan, dir, w, i);
      }
      RestoresIff(run.fs, dir, paths, w);
    }
  }

  lemma BackupIsNoTemp(ready: Fs, fs: Fs, plan: Plan, dir: Path, w: World, i: nat)
    requires Aligned(plan) && BackedUp(ready, fs, plan, dir) && i < |plan.changes|
    ensures BackupPath(dir, i) in ready.files
    ensures forall j :: 0 <= j < |plan.changes| ==>
              plan.changes[j].path != [] && BackupPath(dir, i) != TempPath(plan.changes[j].path, w.pid, j)
  {
    hide BackupPath, TempPath, Under;
    BackupPaths(dir, i, i);
    forall j | 0 <= j < |plan.changes|
      ensures plan.changes[j].path != [] && BackupPath(dir, i) != TempPath(plan.changes[j].path, w.pid, j) {
      TempNotUnder(dir, plan.changes[j].path, w, j);
    }
  }

  ghost predicate GotReady(fs: Fs, plan: Plan, w: World)
  {
    && w.ok(MakeBaseDir) && MakeBackupDirFrom(fs, w, 0).1.Some? && w.ok(WriteManifest)
    && BackUp(MakeBackupDirFrom(fs, w, 0).0, MakeBackupDirFrom(fs, w, 0).1.value, plan.writeSet, w).ok
  }

  ghost predicate IsStart(fs: Fs, plan: Plan, w: World, dir: Path, ready: Fs)
  {
    && GotReady(fs, plan, w) && MakeBackupDirFrom(fs, w, 0).1 == Some(dir)
    && ready == Written(BackUp(MakeBackupDirFrom(fs, w, 0).0, dir, plan.writeSet, w).fs, ManifestPath(dir),
                        w.manifest(plan.writeSet))
  }

  lemma NotStarted(fs: Fs, plan: Plan, w: World)
    requires |plan.changes| == |plan.writeSet|
    ensures !AllUnchanged(fs, plan, w, |plan.changes|) ==> ApplyPlan(fs, plan, w).outcome == InvalidBatch
    ensures AllUnchanged(fs, plan, w, |plan.changes|) && !GotReady(fs, plan, w) ==>
              ApplyPlan(fs, plan, w).outcome == BackupFailed
  {
    hide AllUnchanged, MakeBackupDirFrom, BackUp, WriteFrom, Restore, ManifestPath;
  }

  lemma Started(fs: Fs, plan: Plan, w: World, dir: Path, ready: Fs)
    requires |plan.changes| == |plan.writeSet|
    requires AllUnchanged(fs, plan, w, |plan.changes|) && IsStart(fs, plan, w, dir, ready)
    ensures var run, outcome := WriteFrom(ready, plan.changes, w, 0), ApplyPlan(fs, plan, w).outcome;
            match run.failed
            case None => outcome == Success(plan.writeSet)
            case Some(i) =>
              && run.restore <= |plan.writeSet|
              && outcome == if Restore(run.fs, dir, plan.writeSet[..run.restore], w).ok then RolledBack(i)
                            else RecoveryFailed(i)
  {
    hide AllUnchanged, MakeBackupDirFrom, BackUp, WriteFrom, Restore, ManifestPath;
    WriteFromBounds(ready, plan.changes, w, 0);
  }

  lemma StartExists(fs: Fs, plan: Plan, w: World) returns (dir: Path, ready: Fs)
    requires GotReady(fs, plan, w)
    ensures IsStart(fs, plan, w, dir, ready)
  {
    dir := MakeBackupDirFrom(fs, w, 0).1.value;
    ready := Written(BackUp(MakeBackupDirFrom(fs, w, 0).0, dir, plan.writeSet, w).fs, ManifestPath(dir),
                     w.manifest(plan.writeSet));
  }

  lemma StartIsReady(fs: Fs, plan: Plan, w: World, dir: Path, ready: Fs) returns (a: nat)
    requires Aligned(plan) && ValidFs(fs) && AllUnchanged(fs, plan, w, |plan.changes|)
    requires IsStart(fs, plan, w, dir, ready)
    ensures dir == BackupDir(w, a) && IsReady(ready, fs, plan, dir)
  {
    ReadyIff(fs, plan, w);
    hide Aligned, ValidFs, AllUnchanged, IsReady, CanBackUp, MakeBackupDirFrom, BackUp, BackupDir;
    a :| dir == BackupDir(w, a);
  }

  /**
   * The outcome, whichever steps fail: the batch is refused before anything is touched, backing up fails, or writing
   * stops at the first change that cannot be written, and then what was begun is restored or not.
   */
  lemma OutcomeIs(fs: Fs, plan: Plan, w: World)
    requires Aligned(plan) && ValidFs(fs) && TempsApart(plan, w)
    ensures IsOutcome(fs, plan, w, ApplyPlan(fs, plan, w).outcome)
  {
    VerifiedIs(fs, plan, w);
    assert |plan.writeSet| == |plan.changes|;
    NotStarted(fs, plan, w);
    if AllUnchanged(fs, plan, w, |plan.changes|) {
      ReadyIff(fs, plan, w);
      if GotReady(fs, plan, w) {
        StartedOutcome(fs, plan, w);
      }
    }
    hide AllVerified, AllUnchanged, CanBackUp, ValidFs, TempsApart, Aligned, ApplyPlan, MakeBackupDirFrom, BackUp;
  }

  lemma StartedOutcome(fs: Fs, plan: Plan, w: World)
    requires Aligned(plan) && ValidFs(fs) && TempsApart(plan, w) && |plan.writeSet| == |plan.changes|
    requires AllUnchanged(fs, plan, w, |plan.changes|) && AllVerified(fs, plan, w)
    requires GotReady(fs, plan, w) && CanBackUp(fs, plan, w)
    ensures IsOutcome(fs, plan, w, ApplyPlan(fs, plan, w).outcome)
  {
    hide Aligned, ValidFs, TempsApart, AllUnchanged, AllVerified, GotReady, CanBackUp, IsStart, IsReady, ApplyPlan,
         WriteFrom, Restore, StopsAt, AllWritten, CanRestore, ToRestore, BackupDir;
    var dir, ready := StartExists(fs, plan, w);
    var a := StartIsReady(fs, plan, w, dir, ready);
    Started(fs, plan, w, dir, ready);
    StoppedIs(ready, fs, plan, dir, w, a);
    RestoredIff(ready, fs, plan, dir, w, a);
  }

  lemma StoppedIs(ready: Fs, fs: Fs, plan: Plan, dir: Path, w: World, a: nat)
    requires Aligned(plan) && ValidFs(fs) && IsReady(ready, fs, plan, dir) && dir == BackupDir(w, a)
    ensures var run := WriteFrom(ready, plan.changes, w, 0);
            match run.failed
            case Some(i) => StopsAt(fs, plan.changes, w, i) && run.restore == ToRestore(w, i)
            case None => AllWritten(fs, plan.changes, w)
  {
    NamesBeforeAndReady(ready, fs, plan, dir, w, a);
    hide WriteFrom, CanWrite, BackupDir;
    WritesUpTo(ready, plan.changes, w, 0);
  }

  // ---- Names ----

  lemma SomeDigits()
    ensures PadDigits(3, 1) == "3" && PadDigits(4, 1) == "4" && PadDigits(7, 1) == "7" && PadDigits(31, 1) == "31"
    ensures PadDigits(12, 4) == "0012"
  {
    assert PadDigits(0, 2) == PadDigits(0, 1) + "0" && PadDigits(0, 1) == "0";
    assert PadDigits(1, 3) == PadDigits(0, 2) + "1";
    assert PadDigits(12, 4) == PadDigits(1, 3) + "2";
    assert PadDigits(31, 1) == PadDigits(3, 0) + "1" && PadDigits(3, 0) == "3";
  }

  /** Names are spelled like this. */
  lemma NamesAreSpelled(w: World)
    requires w.backupBase == ["base"] && w.pid == 7 && w.nonce == 31
    ensures BackupDir(w, 4) == ["base", "7-31-4"]
    ensures BackupPath(["dir"], 12) == ["dir", "0012.bak"] && ManifestPath(["dir"]) == ["dir", "manifest.tsv"]
    ensures TempPath(["dir", "a.md"], 7, 3) == ["dir", ".codexlens-apply-7-3.tmp"]
  {
    SomeDigits();
    hide PadDigits;
    assert "7" + "-" + "31" + "-" + "4" == "7-31-4";
    assert "0012" + ".bak" == "0012.bak";
    assert ".codexlens-apply-" + "7" + "-" + "3" + ".tmp" == ".codexlens-apply-7-3.tmp";
    assert Parent(["dir", "a.md"]) == ["dir"];
  }

  /** Every attempt has a name of its own. */
  lemma AttemptsApart(w: World, a: nat, b: nat)
    requires BackupDir(w, a) == BackupDir(w, b)
    ensures a == b
  {
    var n := |w.backupBase|;
    var start := PadDigits(w.pid, 1) + "-" + PadDigits(w.nonce, 1) + "-";
    var left, right := PadDigits(a, 1), PadDigits(b, 1);
    assert BackupDir(w, a)[n] == BackupDir(w, b)[n];
    assert start + left == start + right;
    assert (start + left)[|start|..] == left && (start + right)[|start|..] == right;
    PadDigitsInjective(a, b, 1);
  }
}
