/** Which file of a directory is read and what is read from it, src/instructions.rs. */
module InstructionFiles {
  import opened Wrappers
  import opened Bytes
  import opened Order
  import opened Subsequences
  import opened Utf8
  import opened Instructions
  import opened InstructionChain

  // ---- One file ----

  predicate IsWithin(bytes: Bytes, limit: Option<nat>)
  {
    limit.None? || |bytes| <= limit.value
  }

  /**
   * Absent files are missing. Files of no text or white space that fit are empty. Files that fit and are text are
   * taken whole, and of longer ones the longest text within the limit. All others are unreadable.
   */
  ghost predicate IsReading(file: InstructionFile, c: Candidate, limit: Option<nat>, disk: Disk)
  {
    var entry := disk.look(c.path);
    && file.path == c.path && file.kind == c.kind && file.scope == c.scope && file.position == None
    && (file.state == Missing <==> entry == NotFound)
    && (file.state == Empty <==>
          && entry.Regular? && IsWithin(entry.bytes, limit)
          && (entry.bytes == [] || (IsUtf8(entry.bytes) && disk.blank(entry.bytes))))
    && (file.state == Selected <==>
          && entry.Regular? && IsWithin(entry.bytes, limit)
          && entry.bytes != [] && IsUtf8(entry.bytes) && !disk.blank(entry.bytes))
    && (file.state == State.Truncated <==>
          entry.Regular? && !IsWithin(entry.bytes, limit) && CanBeCut(entry.bytes, limit.value))
    && (file.state == Selected ==> file.content == Some(entry.bytes))
    && (file.state == State.Truncated ==>
          file.content.Some? && IsCut(file.content.value, entry.bytes, limit.value))
    && (file.state != Selected && file.state != State.Truncated ==> file.content == None)
    && file.byteCount == if entry.Regular? then |entry.bytes| else 0
  }

  lemma ReadIs(c: Candidate, limit: Option<nat>, disk: Disk)
    ensures IsReading(Read(c, limit, disk), c, limit, disk)
  {
    if disk.look(c.path).Regular? && limit.Some? {
      CutIs(disk.look(c.path).bytes, limit.value);
    }
    hide Scan, Utf8.Truncated, CanBeCut, IsCut;
    assert IsUtf8([]) by {
      NothingIsUtf8();
    }
    hide IsUtf8;
  }

  lemma NothingIsUtf8()
    ensures IsUtf8([])
  {
  }

  // ---- The candidates in their order ----

  predicate IsReserved(name: string)
  {
    name == "AGENTS.md" || name == "AGENTS.override.md"
  }

  /** The positions from n on of names that are not reserved, in order. */
  ghost predicate AreFallbacks(at: seq<nat>, names: seq<string>, n: nat)
  {
    && Ascending(at, |names|)
    && (forall k :: 0 <= k < |at| ==> n <= at[k])
    && forall i: nat :: n <= i < |names| ==> (i in at <==> !IsReserved(names[i]))
  }

  ghost predicate AreAtNames(cs: seq<Candidate>, at: seq<nat>, directory: Path, names: seq<string>, scope: Scope)
  {
    |cs| == |at| && forall k :: 0 <= k < |at| ==>
      at[k] < |names| && cs[k] == Candidate(directory + [names[at[k]]], Fallback(names[at[k]]), scope)
  }

  lemma {:induction false} FallbacksAre(directory: Path, names: seq<string>, n: nat, scope: Scope)
    returns (at: seq<nat>)
    requires n <= |names|
    ensures AreFallbacks(at, names, n)
    ensures AreAtNames(FallbackCandidates(directory, names[n..], scope), at, directory, names, scope)
    decreases |names| - n
  {
    hide AreFallbacks, AreAtNames, IsReserved;
    if n == |names| {
      at := [];
      NoNamesLeft(directory, names, scope);
    } else {
      var rest := FallbacksAre(directory, names, n + 1, scope);
      at := if IsReserved(names[n]) then rest else [n] + rest;
      assert names[n..][0] == names[n] && names[n..][1..] == names[n + 1..];
      OneNameMore(rest, names, n);
      OneCandidate(directory, names[n..], scope);
      AtOneNameMore(FallbackCandidates(directory, names[n + 1..], scope), rest, directory, names, scope, n);
    }
  }

  lemma OneCandidate(directory: Path, names: seq<string>, scope: Scope)
    requires names != []
    ensures FallbackCandidates(directory, names, scope) ==
            (if IsReserved(names[0]) then [] else [Candidate(directory + [names[0]], Fallback(names[0]), scope)])
            + FallbackCandidates(directory, names[1..], scope)
  {
  }

  lemma NoNamesLeft(directory: Path, names: seq<string>, scope: Scope)
    ensures AreFallbacks([], names, |names|)
    ensures AreAtNames(FallbackCandidates(directory, names[|names|..], scope), [], directory, names, scope)
  {
  }

  lemma OneNameMore(rest: seq<nat>, names: seq<string>, n: nat)
    requires n < |names| && AreFallbacks(rest, names, n + 1)
    ensures AreFallbacks(if IsReserved(names[n]) then rest else [n] + rest, names, n)
  {
    hide IsReserved;
    assert forall i: nat :: i in [n] + rest <==> i == n || i in rest;
  }

  lemma AtOneNameMore(cs: seq<Candidate>, rest: seq<nat>, directory: Path, names: seq<string>, scope: Scope, n: nat)
    requires n < |names| && AreAtNames(cs, rest, directory, names, scope)
    ensures AreAtNames([Candidate(directory + [names[n]], Fallback(names[n]), scope)] + cs, [n] + rest, directory,
                       names, scope)
  {
  }

  function ScopeOf(directory: Path, root: Path): Scope
  {
    if root == directory then ProjectRoot else ProjectNested
  }

  lemma CandidateParts(directory: Path, root: Path, config: Config) returns (fallbacks: seq<Candidate>)
    ensures fallbacks == FallbackCandidates(directory, config.fallbackNames, ScopeOf(directory, root))
    ensures Candidates(directory, root, config) ==
            [Candidate(directory + ["AGENTS.override.md"], Override, ScopeOf(directory, root)),
             Candidate(directory + ["AGENTS.md"], Standard, ScopeOf(directory, root))] + fallbacks
  {
    fallbacks := FallbackCandidates(directory, config.fallbackNames, ScopeOf(directory, root));
    hide FallbackCandidates;
  }

  /**
   * The candidates of a directory: first AGENTS.override.md, then AGENTS.md, then the configured names other than
   * those two, in the order of the configuration. The scope says whether the directory is the root.
   */
  lemma CandidatesAre(directory: Path, root: Path, config: Config) returns (at: seq<nat>)
    ensures var cs, names, scope := Candidates(directory, root, config), config.fallbackNames, ScopeOf(directory, root);
            && AreFallbacks(at, names, 0)
            && |cs| == 2 + |at|
            && cs[0] == Candidate(directory + ["AGENTS.override.md"], Override, scope)
            && cs[1] == Candidate(directory + ["AGENTS.md"], Standard, scope)
            && forall k :: 0 <= k < |at| ==>
                 at[k] < |names| && cs[2 + k] == Candidate(directory + [names[at[k]]], Fallback(names[at[k]]), scope)
  {
    at := FallbacksAre(directory, config.fallbackNames, 0, ScopeOf(directory, root));
    assert config.fallbackNames[0..] == config.fallbackNames;
    var fallbacks := CandidateParts(directory, root, config);
    hide AreFallbacks, Candidates, FallbackCandidates, ScopeOf;
  }

  // ---- The file in effect for a directory ----

  predicate IsInEffect(path: Path, kind: FileKind, scope: Scope, remaining: nat, disk: Disk)
  {
    remaining > 0 && IsUsable(Read(Candidate(path, kind, scope), Some(remaining), disk))
  }

  ghost predicate IsFirstFallback(file: InstructionFile, directory: Path, names: seq<string>, i: nat, remaining: nat,
                                  disk: Disk)
  {
    && i < |names| && !IsReserved(names[i])
    && file.path == directory + [names[i]] && file.kind == Fallback(names[i])
    && forall j: nat :: j < i && !IsReserved(names[j]) ==>
         !IsInEffect(directory + [names[j]], Fallback(names[j]), file.scope, remaining, disk)
  }

  /** The positions of candidates are those of the names behind the two of their own. */
  lemma EarlierFallback(at: seq<nat>, names: seq<string>, i: nat, j: nat) returns (k: nat)
    requires AreFallbacks(at, names, 0) && i < |at| && j < at[i] && !IsReserved(names[j])
    ensures k < i && at[k] == j
  {
    hide IsReserved;
    assert j in at;
    k :| 0 <= k < |at| && at[k] == j;
  }

  lemma FallbackIsFirst(cs: seq<Candidate>, at: seq<nat>, i: nat, directory: Path, names: seq<string>, remaining: nat,
                        disk: Disk, file: InstructionFile)
    requires AreFallbacks(at, names, 0) && |cs| == 2 + |at| && i < |at|
    requires forall k :: 0 <= k < |at| ==>
               && at[k] < |names|
               && cs[2 + k] == Candidate(directory + [names[at[k]]], Fallback(names[at[k]]), file.scope)
    requires UsableAt(cs, 2 + i, remaining, disk) && file.path == cs[2 + i].path && file.kind == cs[2 + i].kind
    ensures IsFirstFallback(file, directory, names, at[i], remaining, disk)
  {
    hide IsReserved, Read, IsUsable;
    assert at[i] in at;
    forall j: nat | j < at[i] && !IsReserved(names[j])
      ensures !IsInEffect(directory + [names[j]], Fallback(names[j]), file.scope, remaining, disk)
    {
      var k := EarlierFallback(at, names, i, j);
      assert cs[2 + k].path == directory + [names[j]];
    }
  }

  lemma ScopeAt(cs: seq<Candidate>, at: seq<nat>, directory: Path, names: seq<string>, scope: Scope, i: nat)
    requires i < |cs| == 2 + |at| && cs[0].scope == scope && cs[1].scope == scope
    requires forall k :: 0 <= k < |at| ==>
               at[k] < |names| && cs[2 + k] == Candidate(directory + [names[at[k]]], Fallback(names[at[k]]), scope)
    ensures cs[i].scope == scope
  {
    if i >= 2 {
      assert at[i - 2] < |names|;
    }
  }

  /**
   * An override that can be used hides the standard file, and that hides every fallback, of which the first that can
   * be used counts.
   */
  lemma FirstUsableIs(directory: Path, root: Path, config: Config, remaining: nat, disk: Disk, file: InstructionFile)
    requires IsFirstUsable(Candidates(directory, root, config), remaining, disk, file)
    ensures var override, standard := directory + ["AGENTS.override.md"], directory + ["AGENTS.md"];
            if IsInEffect(override, Override, file.scope, remaining, disk) then
              file.path == override && file.kind == Override
            else if IsInEffect(standard, Standard, file.scope, remaining, disk) then
              file.path == standard && file.kind == Standard
            else
              exists i: nat :: IsFirstFallback(file, directory, config.fallbackNames, i, remaining, disk)
  {
    var cs := Candidates(directory, root, config);
    var at := CandidatesAre(directory, root, config);
    var i: nat :| UsableAt(cs, i, remaining, disk) && file == Read(cs[i], Some(remaining), disk);
    ReadIs(cs[i], Some(remaining), disk);
    hide Candidates, Read, IsReserved, IsUsable, AreFallbacks, IsFirstFallback, ScopeOf;
    assert file.path == cs[i].path && file.kind == cs[i].kind && file.scope == cs[i].scope;
    hide IsReading;
    ScopeAt(cs, at, directory, config.fallbackNames, ScopeOf(directory, root), i);
    if i >= 2 {
      FallbackIsFirst(cs, at, i - 2, directory, config.fallbackNames, remaining, disk, file);
    }
  }

  /** Beside the project, the home directory counts with its override or else its standard file, read whole. */
  lemma GlobalFileIs(home: Path, disk: Disk)
    ensures var s := Start(Some(home), disk);
            var override := Read(Candidate(home + ["AGENTS.override.md"], Override, Global), None, disk);
            var standard := Read(Candidate(home + ["AGENTS.md"], Standard, Global), None, disk);
            && s.used == 0
            && s.chain == (if IsUsable(override) then [override.(position := Some(0))]
                           else if IsUsable(standard) then [standard.(position := Some(0))] else [])
            && s.files == (if IsUsable(override) then s.chain
                           else if IsUsable(standard) then [override] + s.chain else [override, standard])
  {
    hide Read, IsUsable;
    var start, cs := Selection([], [], 0), OwnCandidates(home, Global);
    var first := Read(cs[0], None, disk);
    assert cs[1..] == [cs[1]] && cs[1..][1..] == [];
    if !IsUsable(first) {
      var t := start.(files := start.files + [first]);
      assert SelectGlobal(start, cs, disk) == SelectGlobal(t, [cs[1]], disk);
    }
  }

  // ---- The directories looked at ----

  ghost predicate IsUnder(cwd: Option<Path>, root: Path)
  {
    cwd.Some? && |root| <= |cwd.value| && cwd.value[..|root|] == root
  }

  /** Each directory from the root down to the working directory, if that lies under the root, else the root alone. */
  lemma DirectoriesAre(root: Path, cwd: Option<Path>)
    ensures var directories := Directories(root, Target(root, cwd));
            if IsUnder(cwd, root) then
              && |directories| == |cwd.value| - |root| + 1
              && (forall i :: 0 <= i < |directories| ==> directories[i] == cwd.value[..|root| + i])
              && directories[0] == root && directories[|directories| - 1] == cwd.value
            else directories == [root]
  {
    assert root[..|root|] == root;
    if IsUnder(cwd, root) {
      assert cwd.value[..|cwd.value|] == cwd.value;
    }
  }
}
