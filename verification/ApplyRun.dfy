/** Planning a batch and running the transaction step by step, as src/advisor/apply.rs does. */
module ApplyRun {
  import opened Wrappers
  import opened Slices
  import opened Order
  import opened FileSystem
  import opened Apply
  import opened ApplySafety

  // ---- Planning ----

  datatype PreparedChange = PreparedChange(path: Path, before: string, after: string)

  /**
   * What scope checking and rendering know about one proposal: whether scope, proposal and patch were accepted,
   * the canonical path of each validated path, the paths the action may write, and the expected hashes.
   */
  datatype Reviewed = Reviewed(
    accepted: bool, canonical: map<Path, Path>, allowed: set<Path>, prepared: seq<PreparedChange>,
    hashes: map<Path, string>)

  datatype PlanResult = Planned(plan: Plan) | Rejected

  predicate ChangeOk(r: Reviewed, c: PreparedChange, hash: string -> string)
  {
    c.path in r.canonical && c.path in r.hashes && hash(c.before) == r.hashes[c.path]
  }

  predicate ReviewOk(r: Reviewed, hash: string -> string)
  {
    && r.accepted
    && (set c | c in r.prepared :: c.path) == r.allowed
    && (forall c :: c in r.prepared ==> ChangeOk(r, c, hash))
  }

  function ToPlanned(r: Reviewed, c: PreparedChange): PlannedChange
  {
    PlannedChange(if c.path in r.canonical then r.canonical[c.path] else [], c.before, c.after,
                  if c.path in r.hashes then r.hashes[c.path] else "")
  }

  function ChangesOf(r: Reviewed, n: nat): seq<PlannedChange>
    requires n <= |r.prepared|
  {
    seq(n, i requires 0 <= i < n => ToPlanned(r, r.prepared[i]))
  }

  function AllChanges(batch: seq<Reviewed>): seq<PlannedChange>
  {
    if batch == [] then []
    else AllChanges(batch[..|batch| - 1]) + ChangesOf(batch[|batch| - 1], |batch[|batch| - 1].prepared|)
  }

  ghost predicate DistinctPaths(changes: seq<PlannedChange>)
  {
    forall i, j :: 0 <= i < j < |changes| ==> changes[i].path != changes[j].path
  }

  ghost predicate Acceptable(batch: seq<Reviewed>, hash: string -> string)
  {
    && batch != []
    && (forall r :: r in batch ==> ReviewOk(r, hash))
    && DistinctPaths(AllChanges(batch))
    && (exists c :: c in AllChanges(batch) && c.before != c.after)
  }

  predicate ByPath(a: PlannedChange, b: PlannedChange) { PathLess(a.path, b.path) }

  /** The keys of a sorted map: strictly sorted, and the paths of the changes collected so far. */
  ghost predicate KeysOf(keys: seq<Path>, changes: seq<PlannedChange>)
  {
    && StrictlySorted(PathLess, keys)
    && (forall p :: p in keys <==> HasPath(changes, p))
  }

  ghost predicate HasPath(changes: seq<PlannedChange>, p: Path)
  {
    exists i :: 0 <= i < |changes| && changes[i].path == p
  }

  lemma HasPathSnoc(changes: seq<PlannedChange>, c: PlannedChange, p: Path)
    ensures HasPath(changes + [c], p) <==> HasPath(changes, p) || p == c.path
  {
    assert (changes + [c])[|changes|] == c;
    assert forall i :: 0 <= i < |changes| ==> (changes + [c])[i] == changes[i];
  }

  lemma AddKey(keys: seq<Path>, changes: seq<PlannedChange>, c: PlannedChange)
    requires KeysOf(keys, changes) && c.path !in keys && DistinctPaths(changes)
    ensures KeysOf(InsertInto(PathLess, keys, c.path), changes + [c])
    ensures DistinctPaths(changes + [c])
  {
    hide PathLess, InsertInto, StrictlySorted, SortedBy, StrictTotal, StrictWeak;
    PathOrder();
    WeakFromTotal(PathLess);
    SortedFromStrict(PathLess, keys);
    InsertIntoIs(PathLess, keys, c.path);
    var after := InsertInto(PathLess, keys, c.path);
    StrictFromDistinct(keys, c.path, after);
    forall p ensures p in after <==> p in keys || p == c.path {
      assert p in after <==> p in multiset(after);
    }
    forall p ensures HasPath(changes + [c], p) <==> HasPath(changes, p) || p == c.path {
      HasPathSnoc(changes, c, p);
    }
    forall i | 0 <= i < |changes| ensures changes[i].path != c.path {
      assert HasPath(changes, changes[i].path);
    }
  }

  lemma SortedFromStrict<T(!new)>(less: (T, T) -> bool, s: seq<T>)
    requires StrictTotal(less) && StrictlySorted(less, s)
    ensures SortedBy(less, s)
  {
    forall i, j | 0 <= i < j < |s| ensures !less(s[j], s[i]) {
      assert less(s[i], s[j]);
    }
  }

  lemma WeakFromTotal<T(!new)>(less: (T, T) -> bool)
    requires StrictTotal(less)
    ensures StrictWeak(less)
  {
  }

  /** A sorted sequence without repeats is strictly sorted. */
  lemma StrictFromDistinct(keys: seq<Path>, p: Path, after: seq<Path>)
    requires StrictTotal(PathLess) && StrictlySorted(PathLess, keys) && p !in keys
    requires SortedBy(PathLess, after) && multiset(after) == multiset(keys) + multiset{p}
    ensures StrictlySorted(PathLess, after)
  {
    hide PathLess;
    forall i, j | 0 <= i < j < |after| ensures PathLess(after[i], after[j]) {
      if after[i] == after[j] {
        RepeatCounts(after, i, j);
        CountOnce(keys);
        assert false;
      }
    }
  }

  lemma RepeatCounts<T>(s: seq<T>, i: nat, j: nat)
    requires i < j < |s| && s[i] == s[j]
    ensures multiset(s)[s[i]] >= 2
  {
    assert s == s[..j] + s[j..];
    assert s[i] in s[..j] && s[j] in s[j..];
    assert multiset(s) == multiset(s[..j]) + multiset(s[j..]);
  }

  lemma {:induction false} CountOnce(keys: seq<Path>)
    requires StrictTotal(PathLess) && StrictlySorted(PathLess, keys)
    ensures forall x :: multiset(keys)[x] <= 1
  {
    if keys != [] {
      hide PathLess;
      var n := |keys| - 1;
      CountOnce(keys[..n]);
      Snoc(keys);
      assert keys[n] !in keys[..n];
    }
  }

  /** Adds the changes of one proposal, or says that it is invalid or meets a path already planned. */
  method AddProposal(r: Reviewed, hash: string -> string, changes0: seq<PlannedChange>, writeSet0: seq<Path>)
    returns (ok: bool, changes: seq<PlannedChange>, writeSet: seq<Path>)
    requires KeysOf(writeSet0, changes0) && DistinctPaths(changes0)
    ensures ok <==> ReviewOk(r, hash) && DistinctPaths(changes0 + ChangesOf(r, |r.prepared|))
    ensures ok ==> changes == changes0 + ChangesOf(r, |r.prepared|) && KeysOf(writeSet, changes)
  {
    hide InsertInto, PathLess, KeysOf, DistinctPaths;
    changes, writeSet := changes0, writeSet0;
    if !r.accepted || (set c | c in r.prepared :: c.path) != r.allowed {
      return false, changes, writeSet;
    }
    for k := 0 to |r.prepared|
      invariant changes == changes0 + ChangesOf(r, k)
      invariant KeysOf(writeSet, changes) && DistinctPaths(changes)
      invariant forall j :: 0 <= j < k ==> ChangeOk(r, r.prepared[j], hash)
    {
      var c := r.prepared[k];
      assert c in r.prepared;
      if c.path !in r.canonical {
        return false, changes, writeSet;
      }
      var path := r.canonical[c.path];
      var planned := ToPlanned(r, c);
      if path in writeSet {
        PathTaken(changes0, r, k, writeSet);
        return false, changes, writeSet;
      }
      if c.path !in r.hashes || hash(c.before) != r.hashes[c.path] {
        return false, changes, writeSet;
      }
      AddKey(writeSet, changes, planned);
      writeSet := InsertInto(PathLess, writeSet, path);
      assert ChangesOf(r, k + 1) == ChangesOf(r, k) + [planned];
      Assoc(changes0, ChangesOf(r, k), [planned]);
      changes := changes + [planned];
    }
    ok := true;
  }

  /** A canonical path met twice. */
  lemma PathTaken(changes: seq<PlannedChange>, r: Reviewed, k: nat, keys: seq<Path>)
    requires k < |r.prepared| && KeysOf(keys, changes + ChangesOf(r, k))
    requires ToPlanned(r, r.prepared[k]).path in keys
    ensures !DistinctPaths(changes + ChangesOf(r, |r.prepared|))
  {
    hide ToPlanned, PathLess;
    var all := changes + ChangesOf(r, |r.prepared|);
    var part := changes + ChangesOf(r, k);
    var j :| 0 <= j < |part| && part[j].path == ToPlanned(r, r.prepared[k]).path;
    assert all[j] == part[j] && all[|changes| + k] == ToPlanned(r, r.prepared[k]);
  }

  /** Validates the batch, collects the changes, and orders changes and write set each on its own. */
  method PrepareApply(batch: seq<Reviewed>, hash: string -> string) returns (result: PlanResult)
    ensures result.Planned? <==> Acceptable(batch, hash)
    ensures result.Planned? ==>
              && Aligned(result.plan)
              && multiset(result.plan.changes) == multiset(AllChanges(batch))
              && StrictlySorted(PathLess, result.plan.writeSet)
              && forall c :: c in result.plan.changes ==> hash(c.before) == c.expectedHash
  {
    hide InsertInto, PathLess, ByPath, KeysOf, DistinctPaths, ReviewOk, Sort, AllChanges, Aligned;
    if batch == [] {
      return Rejected;
    }
    var changes: seq<PlannedChange> := [];
    var writeSet: seq<Path> := [];
    NoKeys();
    for i := 0 to |batch|
      invariant changes == AllChanges(batch[..i])
      invariant KeysOf(writeSet, changes) && DistinctPaths(changes)
      invariant forall j :: 0 <= j < i ==> ReviewOk(batch[j], hash)
    {
      AllChangesSnoc(batch, i);
      PrefixDistinct(batch, i);
      assert batch[i] in batch;
      var ok;
      ok, changes, writeSet := AddProposal(batch[i], hash, changes, writeSet);
      if !ok {
        return Rejected;
      }
    }
    assert batch[..|batch|] == batch;
    if forall i :: 0 <= i < |changes| ==> changes[i].before == changes[i].after {
      return Rejected;
    }
    HashesMatch(batch, hash);
    var sorted := Sort(ByPath, changes);
    SortedPlanAligns(changes, sorted, writeSet);
    result := Planned(Plan(sorted, writeSet));
  }

  lemma NoKeys()
    ensures KeysOf([], []) && AllChanges([]) == [] && DistinctPaths([])
  {
  }

  lemma AllChangesSnoc(batch: seq<Reviewed>, i: nat)
    requires i < |batch|
    ensures AllChanges(batch[..i + 1]) == AllChanges(batch[..i]) + ChangesOf(batch[i], |batch[i].prepared|)
  {
    assert batch[..i + 1][..i] == batch[..i];
  }

  lemma {:induction false} AllChangesPrefix(batch: seq<Reviewed>, i: nat)
    requires i <= |batch|
    ensures AllChanges(batch[..i]) <= AllChanges(batch)
    decreases |batch| - i
  {
    hide AllChanges, ChangesOf;
    if i < |batch| {
      AllChangesSnoc(batch, i);
      AllChangesPrefix(batch, i + 1);
    } else {
      assert batch[..i] == batch;
    }
  }

  lemma PrefixDistinct(batch: seq<Reviewed>, i: nat)
    requires i < |batch|
    ensures DistinctPaths(AllChanges(batch)) ==> DistinctPaths(AllChanges(batch[..i + 1]))
  {
    hide AllChanges;
    AllChangesPrefix(batch, i + 1);
    var all, part := AllChanges(batch), AllChanges(batch[..i + 1]);
    assert forall j :: 0 <= j < |part| ==> part[j] == all[j];
  }

  lemma {:induction false} HashesMatch(batch: seq<Reviewed>, hash: string -> string)
    requires forall j :: 0 <= j < |batch| ==> ReviewOk(batch[j], hash)
    ensures forall c :: c in AllChanges(batch) ==> hash(c.before) == c.expectedHash
  {
    if batch != [] {
      var r := batch[|batch| - 1];
      HashesMatch(batch[..|batch| - 1], hash);
      forall i | 0 <= i < |r.prepared|
          ensures hash(ChangesOf(r, |r.prepared|)[i].before) == ChangesOf(r, |r.prepared|)[i].expectedHash {
        assert r.prepared[i] in r.prepared;
      }
    }
  }

  function Paths(changes: seq<PlannedChange>): seq<Path>
  {
    seq(|changes|, i requires 0 <= i < |changes| => changes[i].path)
  }

  /** The two independently sorted sequences line up, because both are the one sorted sequence of the same paths. */
  lemma SortedPlanAligns(changes: seq<PlannedChange>, sorted: seq<PlannedChange>, keys: seq<Path>)
    requires sorted == Sort(ByPath, changes) && DistinctPaths(changes) && KeysOf(keys, changes)
    ensures Aligned(Plan(sorted, keys)) && multiset(sorted) == multiset(changes)
    ensures forall c :: c in sorted ==> c in changes
    ensures StrictlySorted(PathLess, keys)
  {
    hide PathLess, Sort, ByPath, StrictTotal, StrictWeak;
    PathOrder();
    WeakByPath();
    SortIs(ByPath, changes);
    forall c ensures c in sorted <==> c in changes {
      assert c in sorted <==> c in multiset(sorted);
    }
    PermutedDistinct(changes, sorted);
    StrictPaths(sorted);
    SamePaths(changes, sorted, keys);
    SortedUnique(PathLess, Paths(sorted), keys);
    assert forall i :: 0 <= i < |sorted| ==> Paths(sorted)[i] == sorted[i].path;
  }

  lemma StrictPaths(sorted: seq<PlannedChange>)
    requires SortedBy(ByPath, sorted) && DistinctPaths(sorted) && StrictTotal(PathLess)
    ensures StrictlySorted(PathLess, Paths(sorted))
  {
    hide PathLess;
    forall i, j | 0 <= i < j < |sorted| ensures PathLess(Paths(sorted)[i], Paths(sorted)[j]) {
      assert !ByPath(sorted[j], sorted[i]);
      assert sorted[i].path != sorted[j].path;
    }
  }

  lemma SamePaths(changes: seq<PlannedChange>, sorted: seq<PlannedChange>, keys: seq<Path>)
    requires KeysOf(keys, changes) && forall c :: c in sorted <==> c in changes
    ensures forall p :: p in Paths(sorted) <==> p in keys
  {
    hide PathLess;
    forall p ensures p in Paths(sorted) <==> p in keys {
      if p in keys {
        var i :| 0 <= i < |changes| && changes[i].path == p;
        assert changes[i] in sorted;
        var j :| 0 <= j < |sorted| && sorted[j] == changes[i];
        assert Paths(sorted)[j] == p;
      }
      if p in Paths(sorted) {
        var j :| 0 <= j < |sorted| && Paths(sorted)[j] == p;
        assert sorted[j] in changes;
        var i :| 0 <= i < |changes| && changes[i] == sorted[j];
      }
    }
  }

  lemma WeakByPath()
    ensures StrictWeak(ByPath)
  {
    PathOrder();
    hide PathLess;
    forall a, b, c | ByPath(a, c) ensures ByPath(a, b) || ByPath(b, c) {
      Trichotomy(PathLess, a.path, b.path);
    }
  }

  lemma PermutedDistinct(changes: seq<PlannedChange>, sorted: seq<PlannedChange>)
    requires DistinctPaths(changes) && multiset(sorted) == multiset(changes)
    ensures DistinctPaths(sorted)
  {
    forall i, j | 0 <= i < j < |sorted| ensures sorted[i].path != sorted[j].path {
      assert sorted[i] in multiset(changes) && sorted[j] in multiset(changes);
      var a :| 0 <= a < |changes| && changes[a] == sorted[i];
      var b :| 0 <= b < |changes| && changes[b] == sorted[j];
      if a == b {
        RepeatCounts(sorted, i, j);
        DistinctCounts(changes, a);
        assert false;
      }
    }
  }

  lemma DistinctCounts(changes: seq<PlannedChange>, a: nat)
    requires DistinctPaths(changes) && a < |changes|
    ensures multiset(changes)[changes[a]] == 1
  {
    var before, after := changes[..a], changes[a + 1..];
    assert changes == before + [changes[a]] + after;
    assert changes[a] !in before && changes[a] !in after;
  }

  // ---- Running ----

  /** The file system the transaction works on. */
  class Disk {
    var fs: Fs

    constructor (fs: Fs)
      ensures this.fs == fs
    {
      this.fs := fs;
    }
  }

  method Verify(disk: Disk, plan: Plan, w: World) returns (ok: bool)
    ensures ok <==> AllUnchanged(disk.fs, plan, w, |plan.changes|)
  {
    for i := 0 to |plan.changes|
      invariant AllUnchanged(disk.fs, plan, w, i)
    {
      if !Unchanged(disk.fs, plan.changes[i], w, i) {
        return false;
      }
    }
    ok := true;
  }

  method CreateBackupDir(disk: Disk, w: World) returns (dir: Option<Path>)
    modifies disk
    ensures (disk.fs, dir) == MakeBackupDirFrom(old(disk.fs), w, 0)
  {
    hide BackupDir;
    for attempt := 0 to 100
      invariant disk.fs == old(disk.fs)
      invariant MakeBackupDirFrom(old(disk.fs), w, 0) == MakeBackupDirFrom(disk.fs, w, attempt)
    {
      var path := BackupDir(w, attempt);
      if !(path in disk.fs.dirs || path in disk.fs.files) {
        var made := CreateDir(disk.fs, path, w.ok(MakeBackupDir(attempt)));
        disk.fs := made.fs;
        return if made.ok then Some(path) else None;
      }
    }
    dir := None;
  }

  method CreateBackups(disk: Disk, dir: Path, paths: seq<Path>, w: World) returns (ok: bool)
    modifies disk
    ensures Stepped(disk.fs, ok) == BackUp(old(disk.fs), dir, paths, w)
  {
    hide BackupPath;
    for n := 0 to |paths|
      invariant Stepped(disk.fs, true) == BackUp(old(disk.fs), dir, paths[..n], w)
    {
      assert paths[..n + 1][..n] == paths[..n];
      var copied := CopyFile(disk.fs, paths[n], BackupPath(dir, n), w.ok(CopyBackup(n)));
      disk.fs := copied.fs;
      if !copied.ok {
        BackUpStops(old(disk.fs), dir, paths, w, n + 1);
        return false;
      }
    }
    assert paths[..|paths|] == paths;
    ok := true;
  }

  /** A failed copy ends the backup: the later ones are not tried. */
  lemma {:induction false} BackUpStops(fs: Fs, dir: Path, paths: seq<Path>, w: World, n: nat)
    requires n <= |paths| && !BackUp(fs, dir, paths[..n], w).ok
    ensures BackUp(fs, dir, paths, w) == BackUp(fs, dir, paths[..n], w)
    decreases |paths| - n
  {
    hide BackupPath;
    if n < |paths| {
      assert paths[..n + 1][..n] == paths[..n];
      BackUpStops(fs, dir, paths, w, n + 1);
    } else {
      assert paths[..n] == paths;
    }
  }

  method WriteOne(disk: Disk, c: PlannedChange, w: World, i: nat) returns (ok: bool)
    modifies disk
    ensures Stepped(disk.fs, ok) == WriteChange(old(disk.fs), c, w, i)
  {
    hide TempPath;
    if c.path == [] {
      return false;
    }
    var temp := TempPath(c.path, w.pid, i);
    var step := CreateNew(disk.fs, temp, w.ok(CreateTemp(i)));
    disk.fs := step.fs;
    if step.ok {
      step := Overwrite(disk.fs, temp, c.after, w.ok(WriteTemp(i)));
      disk.fs := step.fs;
      if step.ok && w.ok(SyncTemp(i)) && c.path in disk.fs.files && w.ok(StatTarget(i)) && w.ok(ChmodTemp(i)) {
        step := Rename(disk.fs, temp, c.path, w.ok(RenameTemp(i)));
        disk.fs := step.fs;
        if step.ok {
          return true;
        }
      }
    }
    disk.fs := RemoveFile(disk.fs, temp, w.ok(RemoveTemp(i))).fs;
    ok := false;
  }

  method RestoreBackups(disk: Disk, dir: Path, paths: seq<Path>, w: World) returns (ok: bool)
    modifies disk
    ensures Stepped(disk.fs, ok) == Restore(old(disk.fs), dir, paths, w)
  {
    hide BackupPath;
    for n := 0 to |paths|
      invariant Stepped(disk.fs, true) == Restore(old(disk.fs), dir, paths[..n], w)
    {
      assert paths[..n + 1][..n] == paths[..n];
      if !w.ok(RecheckBackup(n)) || paths[n] !in disk.fs.files {
        RestoreStops(old(disk.fs), dir, paths, w, n + 1);
        return false;
      }
      var copied := CopyFile(disk.fs, BackupPath(dir, n), paths[n], w.ok(CopyBack(n)));
      disk.fs := copied.fs;
      if !copied.ok {
        RestoreStops(old(disk.fs), dir, paths, w, n + 1);
        return false;
      }
    }
    assert paths[..|paths|] == paths;
    ok := true;
  }

  lemma {:induction false} RestoreStops(fs: Fs, dir: Path, paths: seq<Path>, w: World, n: nat)
    requires n <= |paths| && !Restore(fs, dir, paths[..n], w).ok
    ensures Restore(fs, dir, paths, w) == Restore(fs, dir, paths[..n], w)
    decreases |paths| - n
  {
    hide BackupPath;
    if n < |paths| {
      assert paths[..n + 1][..n] == paths[..n];
      RestoreStops(fs, dir, paths, w, n + 1);
    } else {
      assert paths[..n] == paths;
    }
  }

  method FailApply(disk: Disk, dir: Path, paths: seq<Path>, index: nat, w: World) returns (outcome: Outcome)
    modifies disk
    ensures var r := Restore(old(disk.fs), dir, paths, w);
            disk.fs == r.fs && outcome == if r.ok then RolledBack(index) else RecoveryFailed(index)
  {
    var ok := RestoreBackups(disk, dir, paths, w);
    outcome := if ok then RolledBack(index) else RecoveryFailed(index);
  }

  method RunPlan(disk: Disk, plan: Plan, w: World) returns (outcome: Outcome)
    requires |plan.changes| == |plan.writeSet|
    modifies disk
    ensures Applied(disk.fs, outcome) == ApplyPlan(old(disk.fs), plan, w)
  {
    hide AllUnchanged, MakeBackupDirFrom, BackUp, WriteChange, Restore, ManifestPath;
    var ok := Verify(disk, plan, w);
    if !ok {
      return InvalidBatch;
    }
    if !w.ok(MakeBaseDir) {
      return BackupFailed;
    }
    var made := CreateBackupDir(disk, w);
    if made.None? {
      return BackupFailed;
    }
    var dir := made.value;
    ok := CreateBackups(disk, dir, plan.writeSet, w);
    if !ok || !w.ok(WriteManifest) {
      return BackupFailed;
    }
    disk.fs := Written(disk.fs, ManifestPath(dir), w.manifest(plan.writeSet));
    ghost var ready := disk.fs;
    WriteFromBounds(ready, plan.changes, w, 0);
    for i := 0 to |plan.changes|
      invariant WriteFrom(ready, plan.changes, w, 0) == WriteFrom(disk.fs, plan.changes, w, i)
    {
      if w.failAfter == Some(i) {
        outcome := FailApply(disk, dir, plan.writeSet[..i], i, w);
        return;
      }
      ok := WriteOne(disk, plan.changes[i], w, i);
      if !ok {
        outcome := FailApply(disk, dir, plan.writeSet[..i + 1], i, w);
        return;
      }
    }
    outcome := Success(plan.writeSet);
  }

  /** Review, confirmation and transaction in one: nothing happens without a plan and a confirmation. */
  method OptimizeApply(disk: Disk, batch: seq<Reviewed>, w: World, confirmed: bool)
    returns (plan: PlanResult, outcome: Option<Outcome>)
    requires ValidFs(disk.fs)
    modifies disk
    ensures outcome.Some? <==> confirmed && Acceptable(batch, w.hash)
    ensures outcome.None? ==> disk.fs == old(disk.fs)
    ensures outcome.Some? ==>
              && plan.Planned? && Aligned(plan.plan)
              && multiset(plan.plan.changes) == multiset(AllChanges(batch))
              && (NoTempFiles(old(disk.fs), plan.plan, w) ==>
                    Safe(old(disk.fs), Applied(disk.fs, outcome.value), plan.plan, w))
  {
    hide Acceptable, ValidFs, ApplyPlan, Safe, NoTempFiles, AllChanges;
    plan := PrepareApply(batch, w.hash);
    outcome := None;
    if plan.Planned? && confirmed {
      ghost var before := disk.fs;
      var result := RunPlan(disk, plan.plan, w);
      if NoTempFiles(before, plan.plan, w) {
        AllOrNothing(before, plan.plan, w);
      }
      outcome := Some(result);
    }
  }
}
