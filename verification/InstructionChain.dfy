/** What the project part of the instruction chain is, for every file tree and every budget. */
module InstructionChain {
  import opened Wrappers
  import opened Order
  import opened Utf8
  import opened Instructions

  /** The budget used by files of the chain: a file cut short uses up all that was left. */
  function Used(added: seq<InstructionFile>, max: nat): nat
  {
    if added == [] then 0
    else
      var before := Used(added[..|added| - 1], max);
      before + Consumed(added[|added| - 1], Remaining(max, before))
  }

  function ContentBytes(added: seq<InstructionFile>): nat
  {
    if added == [] then 0
    else
      var last := added[|added| - 1];
      ContentBytes(added[..|added| - 1]) + if last.content.Some? then |last.content.value| else 0
  }

  /** `file` is the first candidate that is usable with what is left of the budget. */
  ghost predicate IsFirstUsable(candidates: seq<Candidate>, remaining: nat, disk: Disk, file: InstructionFile)
  {
    exists i: nat :: UsableAt(candidates, i, remaining, disk) && file == Read(candidates[i], Some(remaining), disk)
  }

  ghost predicate UsableAt(candidates: seq<Candidate>, i: nat, remaining: nat, disk: Disk)
  {
    && remaining > 0 && i < |candidates| && IsUsable(Read(candidates[i], Some(remaining), disk))
    && forall j :: 0 <= j < i ==> !IsUsable(Read(candidates[j], Some(remaining), disk))
  }

  ghost predicate NoneUsable(candidates: seq<Candidate>, remaining: nat, disk: Disk)
  {
    remaining > 0 ==> forall j :: 0 <= j < |candidates| ==> !IsUsable(Read(candidates[j], Some(remaining), disk))
  }

  /** Directory `d` lies after the directory of the file before number `k` and before that of file number `k`. */
  predicate Between(owners: seq<nat>, k: nat, d: nat)
  {
    k <= |owners| && (k > 0 ==> owners[k - 1] < d) && (k < |owners| ==> d < owners[k])
  }

  /**
   * The files added on the way through the first `n` directories: each is the first usable candidate of its own
   * directory, in the order of the directories, and a directory without a file had no usable candidate
   * or no budget was left when its turn came.
   */
  ghost predicate Greedy(added: seq<InstructionFile>, owners: seq<nat>, n: nat, base: nat, directories: seq<Path>,
                         root: Path, config: Config, max: nat, disk: Disk)
  {
    && n <= |directories| && |owners| == |added|
    && (forall k :: 0 <= k < |owners| ==> owners[k] < n)
    && (forall k, l :: 0 <= k < l < |owners| ==> owners[k] < owners[l])
    && (forall k :: 0 <= k < |owners| ==> OwnerHolds(added, owners[k], k, base, directories, root, config, max, disk))
    && (forall k: nat, d: nat :: Between(owners, k, d) && d < n ==>
          NoneUsable(Candidates(directories[d], root, config), Remaining(max, Used(added[..k], max)), disk))
  }

  ghost predicate OwnerHolds(added: seq<InstructionFile>, d: nat, k: nat, base: nat, directories: seq<Path>, root: Path,
                             config: Config, max: nat, disk: Disk)
  {
    && k < |added| && d < |directories| && added[k].position == Some(base + k)
    && IsFirstUsable(Candidates(directories[d], root, config), Remaining(max, Used(added[..k], max)), disk,
                     added[k].(position := None))
  }

  // ---- One directory ----

  lemma {:induction false} SelectProjectIs(s: Selection, candidates: seq<Candidate>, max: nat, disk: Disk)
    ensures var t, remaining := SelectProject(s, candidates, max, disk), Remaining(max, s.used);
            || (t.chain == s.chain && t.used == s.used && NoneUsable(candidates, remaining, disk))
            || (exists file :: IsFirstUsable(candidates, remaining, disk, file)
                               && t.chain == s.chain + [file.(position := Some(|s.chain|))]
                               && t.used == s.used + Consumed(file, remaining))
    decreases |candidates|
  {
    hide Read;
    var remaining := Remaining(max, s.used);
    if candidates != [] && remaining > 0 {
      var file := Read(candidates[0], Some(remaining), disk);
      if IsUsable(file) {
        assert UsableAt(candidates, 0, remaining, disk);
      } else {
        var more := s.(files := s.files + [file]);
        SelectProjectIs(more, candidates[1..], max, disk);
        LaterCandidates(candidates, remaining, disk);
      }
    }
  }

  /** When the first candidate is not usable, the first usable one is found among the others. */
  lemma LaterCandidates(candidates: seq<Candidate>, remaining: nat, disk: Disk)
    requires candidates != [] && !IsUsable(Read(candidates[0], Some(remaining), disk))
    ensures NoneUsable(candidates[1..], remaining, disk) ==> NoneUsable(candidates, remaining, disk)
    ensures forall file :: IsFirstUsable(candidates[1..], remaining, disk, file) ==>
        IsFirstUsable(candidates, remaining, disk, file)
  {
    hide Read;
    var rest := candidates[1..];
    assert forall j :: 1 <= j < |candidates| ==> candidates[j] == rest[j - 1];
    forall file | IsFirstUsable(rest, remaining, disk, file) ensures IsFirstUsable(candidates, remaining, disk, file) {
      var i: nat :| UsableAt(rest, i, remaining, disk) && file == Read(rest[i], Some(remaining), disk);
      assert UsableAt(candidates, i + 1, remaining, disk);
    }
  }

  // ---- One more directory ----

  lemma UsedPrefix(added: seq<InstructionFile>, file: InstructionFile, max: nat)
    ensures forall k :: 0 <= k <= |added| ==> (added + [file])[..k] == added[..k]
    ensures Used(added + [file], max) == Used(added, max) + Consumed(file, Remaining(max, Used(added, max)))
  {
    assert (added + [file])[..|added|] == added;
  }

  lemma NothingAddedIsGreedy(added: seq<InstructionFile>, owners: seq<nat>, n: nat, base: nat, directories: seq<Path>,
                             root: Path, config: Config, max: nat, disk: Disk)
    requires n < |directories| && Greedy(added, owners, n, base, directories, root, config, max, disk)
    requires NoneUsable(Candidates(directories[n], root, config), Remaining(max, Used(added, max)), disk)
    ensures Greedy(added, owners, n + 1, base, directories, root, config, max, disk)
  {
    hide NoneUsable, Candidates, Used, OwnerHolds;
    forall k: nat, d: nat | Between(owners, k, d) && d < n + 1
      ensures NoneUsable(Candidates(directories[d], root, config), Remaining(max, Used(added[..k], max)), disk)
    {
      if d == n {
        assert k == |added| && added[..k] == added;
      }
    }
  }

  lemma OwnersAfterOne(added: seq<InstructionFile>, owners: seq<nat>, n: nat, base: nat, file: InstructionFile,
                       directories: seq<Path>, root: Path, config: Config, max: nat, disk: Disk, k: nat)
    requires n < |directories| && Greedy(added, owners, n, base, directories, root, config, max, disk)
    requires IsFirstUsable(Candidates(directories[n], root, config), Remaining(max, Used(added, max)), disk, file)
    requires file.position.None? && k <= |owners|
    ensures OwnerHolds(added + [file.(position := Some(base + |added|))], (owners + [n])[k], k, base, directories,
        root, config, max, disk)
  {
    hide NoneUsable, Candidates, Used, IsFirstUsable, Between;
    var more := added + [file.(position := Some(base + |added|))];
    if k < |owners| {
      assert OwnerHolds(added, owners[k], k, base, directories, root, config, max, disk);
      assert more[k] == added[k] && more[..k] == added[..k];
    } else {
      assert more[..k] == added && more[k].(position := None) == file;
    }
  }

  lemma GapsAfterOne(added: seq<InstructionFile>, owners: seq<nat>, n: nat, base: nat, more: seq<InstructionFile>,
                     directories: seq<Path>, root: Path, config: Config, max: nat, disk: Disk, k: nat, d: nat)
    requires n < |directories| && Greedy(added, owners, n, base, directories, root, config, max, disk)
    requires Between(owners + [n], k, d) && d < n + 1 && |more| == |added| + 1 && more[..|added|] == added
    ensures d < n && k <= |added|
    ensures NoneUsable(Candidates(directories[d], root, config), Remaining(max, Used(more[..k], max)), disk)
  {
    hide NoneUsable, Candidates, Used, OwnerHolds;
    var all := owners + [n];
    assert k > 0 ==> all[k - 1] < d;
    assert all[|owners|] == n;
    assert k <= |owners|;
    assert k < |owners| ==> all[k] == owners[k];
    assert k > 0 ==> all[k - 1] == owners[k - 1];
    assert Between(owners, k, d);
    assert more[..k] == added[..k];
  }

  lemma OneAddedIsGreedy(added: seq<InstructionFile>, owners: seq<nat>, n: nat, base: nat, file: InstructionFile,
                         directories: seq<Path>, root: Path, config: Config, max: nat, disk: Disk)
    requires n < |directories| && Greedy(added, owners, n, base, directories, root, config, max, disk)
    requires IsFirstUsable(Candidates(directories[n], root, config), Remaining(max, Used(added, max)), disk, file)
    requires file.position.None?
    ensures Greedy(added + [file.(position := Some(base + |added|))], owners + [n], n + 1, base, directories, root,
        config, max, disk)
  {
    hide NoneUsable, Candidates, Used, IsFirstUsable, OwnerHolds;
    var more, all := added + [file.(position := Some(base + |added|))], owners + [n];
    assert more[..|added|] == added;
    forall k | 0 <= k < |all| ensures OwnerHolds(more, all[k], k, base, directories, root, config, max, disk) {
      OwnersAfterOne(added, owners, n, base, file, directories, root, config, max, disk, k);
    }
    forall k: nat, d: nat | Between(all, k, d) && d < n + 1
      ensures NoneUsable(Candidates(directories[d], root, config), Remaining(max, Used(more[..k], max)), disk)
    {
      GapsAfterOne(added, owners, n, base, more, directories, root, config, max, disk, k, d);
    }
  }

  // ---- The whole walk ----

  lemma {:induction false} WalkIsGreedy(s: Selection, k: nat, base: nat, owners: seq<nat>, directories: seq<Path>,
                                        root: Path, config: Config, max: nat, disk: Disk)
    returns (all: seq<nat>)
    requires k <= |directories| && base <= |s.chain|
    requires Greedy(s.chain[base..], owners, k, base, directories, root, config, max, disk)
    requires s.used == Used(s.chain[base..], max)
    ensures var t := Walk(s, directories, k, root, config, max, disk);
            && base <= |t.chain| && t.chain[..base] == s.chain[..base] && t.used == Used(t.chain[base..], max)
            && Greedy(t.chain[base..], all, |directories|, base, directories, root, config, max, disk)
    decreases |directories| - k
  {
    hide Greedy, Candidates, NoneUsable, IsFirstUsable, Used, SelectProject;
    all := owners;
    if k < |directories| {
      var candidates, remaining := Candidates(directories[k], root, config), Remaining(max, s.used);
      var t := SelectProject(s, candidates, max, disk);
      SelectProjectIs(s, candidates, max, disk);
      var added := s.chain[base..];
      if t.chain == s.chain && t.used == s.used && NoneUsable(candidates, remaining, disk) {
        NothingAddedIsGreedy(added, owners, k, base, directories, root, config, max, disk);
      } else {
        var file :| IsFirstUsable(candidates, remaining, disk, file)
                    && t.chain == s.chain + [file.(position := Some(|s.chain|))]
                    && t.used == s.used + Consumed(file, remaining);
        FirstUsableIsRead(candidates, remaining, disk, file);
        OneAddedIsGreedy(added, owners, k, base, file, directories, root, config, max, disk);
        UsedPrefix(added, file.(position := Some(|s.chain|)), max);
        Slices.DropConcat(s.chain, [file.(position := Some(|s.chain|))], base);
        all := owners + [k];
      }
      if t.used >= max {
        RestIsGreedy(t.chain[base..], all, k + 1, base, directories, root, config, max, disk);
      } else {
        all := WalkIsGreedy(t, k + 1, base, all, directories, root, config, max, disk);
      }
    }
  }

  lemma FirstUsableIsRead(candidates: seq<Candidate>, remaining: nat, disk: Disk, file: InstructionFile)
    requires IsFirstUsable(candidates, remaining, disk, file)
    ensures remaining > 0 && IsUsable(file) && file.position.None? && file.content.Some?
        && |file.content.value| <= remaining
    ensures IsUtf8(file.content.value)
  {
    hide Read;
    var i: nat :| UsableAt(candidates, i, remaining, disk) && file == Read(candidates[i], Some(remaining), disk);
    ReadFits(candidates[i], Some(remaining), disk);
  }

  /** Without budget no further directory would have added anything. */
  lemma {:induction false} RestIsGreedy(added: seq<InstructionFile>, owners: seq<nat>, n: nat, base: nat,
                                        directories: seq<Path>, root: Path, config: Config, max: nat, disk: Disk)
    requires n <= |directories| && Greedy(added, owners, n, base, directories, root, config, max, disk)
    requires Used(added, max) >= max
    ensures Greedy(added, owners, |directories|, base, directories, root, config, max, disk)
    decreases |directories| - n
  {
    hide Greedy, Used, Candidates;
    if n < |directories| {
      NothingAddedIsGreedy(added, owners, n, base, directories, root, config, max, disk);
      RestIsGreedy(added, owners, n + 1, base, directories, root, config, max, disk);
    }
  }

  // ---- What follows for the chain ----

  /** Never more than the budget, and only the last file can be cut short. */
  lemma {:induction false} GreedyStaysInBudget(added: seq<InstructionFile>, owners: seq<nat>, n: nat, base: nat, k: nat,
                                               directories: seq<Path>, root: Path, config: Config, max: nat, disk: Disk)
    requires Greedy(added, owners, n, base, directories, root, config, max, disk) && k <= |added|
    ensures ContentBytes(added[..k]) <= Used(added[..k], max) <= max
    ensures k > 0 && added[k - 1].state == State.Truncated ==> Used(added[..k], max) == max
    ensures k > 0 ==> Used(added[..k - 1], max) < max
  {
    if k > 0 {
      GreedyStaysInBudget(added, owners, n, base, k - 1, directories, root, config, max, disk);
      assert OwnerHolds(added, owners[k - 1], k - 1, base, directories, root, config, max, disk);
      hide Greedy, IsFirstUsable, Candidates;
      FirstUsableIsRead(Candidates(directories[owners[k - 1]], root, config),
                        Remaining(max, Used(added[..k - 1], max)), disk,
                        added[k - 1].(position := None));
      assert added[..k][..k - 1] == added[..k - 1];
    }
  }

  lemma {:induction false} SelectGlobalIs(s: Selection, candidates: seq<Candidate>, disk: Disk)
    requires forall c :: c in candidates ==> c.scope == Global
    ensures var t := SelectGlobal(s, candidates, disk);
            && t.used == s.used
            && (t.chain == s.chain
                || (|t.chain| == |s.chain| + 1 && t.chain[|s.chain|].position == Some(|s.chain|)
                    && t.chain[|s.chain|].scope == Global))
    decreases |candidates|
  {
    if candidates != [] {
      SelectGlobalIs(s.(files := s.files + [Read(candidates[0], None, disk)]), candidates[1..], disk);
    }
  }

  lemma StartPositions(codexHome: Option<Path>, disk: Disk)
    ensures var s := Start(codexHome, disk);
            s.used == 0 && |s.chain| <= 1
                && (s.chain != [] ==> s.chain[0].position == Some(0) && s.chain[0].scope == Global)
  {
    hide SelectGlobal;
    if codexHome.Some? {
      SelectGlobalIs(Selection([], [], 0), OwnCandidates(codexHome.value, Global), disk);
    }
  }

  /**
   * For every file tree and budget: positions count up from zero, the project files are found greedily from the root
   * to the working directory, their text is UTF-8 and together within the budget, and only the last one can be cut
   * short.
   */
  lemma ChainIsGreedy(codexHome: Option<Path>, root: Path, cwd: Option<Path>, config: Config, disk: Disk)
    returns (owners: seq<nat>)
    ensures var s, base, max :=
        Resolved(codexHome, Some(root), cwd, config, disk), |Start(codexHome, disk).chain|, Max(config.maxBytes, 1);
            var directories := Directories(root, Target(root, cwd));
            && base <= 1 && base <= |s.chain|
            && (forall k :: 0 <= k < |s.chain| ==> s.chain[k].position == Some(k))
            && (forall k :: 0 <= k < |s.chain| ==> (s.chain[k].scope == Global <==> k < base))
            && Greedy(s.chain[base..], owners, |directories|, base, directories, root, config, max, disk)
            && ContentBytes(s.chain[base..]) <= max
            && (forall k :: base <= k < |s.chain| - 1 ==> s.chain[k].state == Selected)
            && (forall k :: base <= k < |s.chain| ==> s.chain[k].content.Some? && IsUtf8(s.chain[k].content.value))
  {
    hide Greedy, SelectProject, SelectGlobal, Candidates, Used, ContentBytes;
    var start, max := Start(codexHome, disk), Max(config.maxBytes, 1);
    var base, directories := |start.chain|, Directories(root, Target(root, cwd));
    StartPositions(codexHome, disk);
    assert start.chain[base..] == [];
    NothingYet(base, directories, root, config, max, disk);
    owners := WalkIsGreedy(start, 0, base, [], directories, root, config, max, disk);
    var s := Resolved(codexHome, Some(root), cwd, config, disk);
    var added := s.chain[base..];
    GreedyStaysInBudget(added, owners, |directories|, base, |added|, directories, root, config, max, disk);
    assert added[..|added|] == added;
    forall k | 0 <= k < base ensures s.chain[k] == start.chain[k] {
      assert s.chain[..base][k] == s.chain[k];
    }
    forall k | base <= k < |s.chain|
      ensures s.chain[k].position == Some(k) && s.chain[k].content.Some? && IsUtf8(s.chain[k].content.value)
      ensures s.chain[k].scope != Global && (k < |s.chain| - 1 ==> s.chain[k].state == Selected)
    {
      assert s.chain[k] == added[k - base];
      FileOfGreedy(added, owners, base, k - base, directories, root, config, max, disk);
    }
  }

  lemma NothingYet(base: nat, directories: seq<Path>, root: Path, config: Config, max: nat, disk: Disk)
    ensures Greedy([], [], 0, base, directories, root, config, max, disk) && Used([], max) == 0
  {
  }

  lemma FileOfGreedy(added: seq<InstructionFile>, owners: seq<nat>, base: nat, k: nat, directories: seq<Path>,
                     root: Path, config: Config, max: nat, disk: Disk)
    requires Greedy(added, owners, |directories|, base, directories, root, config, max, disk) && k < |added|
    ensures added[k].position == Some(base + k) && added[k].scope != Global
    ensures added[k].content.Some? && IsUtf8(added[k].content.value)
    ensures k < |added| - 1 ==> added[k].state == Selected
  {
    GreedyStaysInBudget(added, owners, |directories|, base, k + 1, directories, root, config, max, disk);
    if k + 2 <= |added| {
      GreedyStaysInBudget(added, owners, |directories|, base, k + 2, directories, root, config, max, disk);
    }
    assert OwnerHolds(added, owners[k], k, base, directories, root, config, max, disk);
    hide Greedy, Candidates, Used, IsFirstUsable;
    var candidates, remaining :=
        Candidates(directories[owners[k]], root, config), Remaining(max, Used(added[..k], max));
    FirstUsableIsRead(candidates, remaining, disk, added[k].(position := None));
    FirstUsableIsOfTheProject(directories[owners[k]], root, config, remaining, disk, added[k].(position := None));
  }

  lemma FirstUsableIsOfTheProject(directory: Path, root: Path, config: Config, remaining: nat, disk: Disk,
                                  file: InstructionFile)
    requires IsFirstUsable(Candidates(directory, root, config), remaining, disk, file)
    ensures file.scope != Global
  {
    var candidates := Candidates(directory, root, config);
    var i: nat :| UsableAt(candidates, i, remaining, disk) && file == Read(candidates[i], Some(remaining), disk);
    FallbacksAreOfTheProject(directory, config.fallbackNames, if directory == root then ProjectRoot else ProjectNested);
  }

  lemma {:induction false} FallbacksAreOfTheProject(directory: Path, names: seq<string>, scope: Scope)
    ensures forall c :: c in FallbackCandidates(directory, names, scope) ==> c.scope == scope
  {
    if names != [] {
      FallbacksAreOfTheProject(directory, names[1..], scope);
    }
  }
}
