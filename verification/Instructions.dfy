/** The chain of instruction files under a cumulative byte budget, src/instructions.rs. */
module Instructions {
  import opened Wrappers
  import opened Bytes
  import opened Order
  import opened Utf8

  /** What is at a path: nothing, something that cannot be read as a regular file, or a file's bytes. */
  datatype Entry = NotFound | CannotRead | Regular(bytes: Bytes)

  /** The file tree, and which texts consist of white space only. */
  datatype Disk = Disk(look: Path -> Entry, blank: Bytes -> bool)

  datatype Scope = Global | ProjectRoot | ProjectNested

  datatype FileKind = Override | Standard | Fallback(name: string)

  datatype Candidate = Candidate(path: Path, kind: FileKind, scope: Scope)

  datatype State = Missing | Unreadable | Empty | Selected | Truncated

  datatype InstructionFile = InstructionFile(
    path: Path, kind: FileKind, scope: Scope, state: State, position: Option<nat>, content: Option<Bytes>,
    byteCount: nat)

  datatype Config = Config(maxBytes: nat, fallbackNames: seq<string>)

  /** Every file looked at, the chain of those in effect, and how much of the project budget is used. */
  datatype Selection = Selection(files: seq<InstructionFile>, chain: seq<InstructionFile>, used: nat)

  // ---- One candidate ----

  /** No limit stands for the largest machine word, which no file reaches. */
  predicate Exceeds(bytes: Bytes, limit: Option<nat>)
  {
    limit.Some? && |bytes| > limit.value
  }

  function Read(c: Candidate, limit: Option<nat>, disk: Disk): InstructionFile
  {
    var base := InstructionFile(c.path, c.kind, c.scope, Missing, None, None, 0);
    match disk.look(c.path)
    case NotFound => base
    case CannotRead => base.(state := Unreadable)
    case Regular(bytes) =>
      if bytes == [] then base.(state := Empty)
      else if Exceeds(bytes, limit) then
        match Utf8.Truncated(bytes, limit.value)
        case Some(cut) => base.(state := State.Truncated, content := Some(cut), byteCount := |bytes|)
        case None => base.(state := Unreadable, byteCount := |bytes|)
      else if !IsUtf8(bytes) then base.(state := Unreadable, byteCount := |bytes|)
      else if disk.blank(bytes) then base.(state := Empty, byteCount := |bytes|)
      else base.(state := Selected, content := Some(bytes), byteCount := |bytes|)
  }

  predicate IsUsable(file: InstructionFile)
  {
    file.state == Selected || file.state == State.Truncated
  }

  /** A usable file has text, which fits the limit, begins the file, and is the whole file unless cut short. */
  lemma ReadFits(c: Candidate, limit: Option<nat>, disk: Disk)
    ensures var file := Read(c, limit, disk);
            && (IsUsable(file) <==> file.content.Some?) && file.position.None?
            && (IsUsable(file) ==>
                  var entry := disk.look(c.path);
                  && entry.Regular? && IsUtf8(file.content.value) && !Exceeds(file.content.value, limit)
                  && file.content.value <= entry.bytes
                  && (file.state == Selected <==> !Exceeds(entry.bytes, limit))
                  && (file.state == Selected ==> file.content.value == entry.bytes))
  {
    hide Scan;
    if disk.look(c.path).Regular? && limit.Some? {
      TruncatedIsUtf8(disk.look(c.path).bytes, limit.value);
    }
  }

  /** Reads one byte more than the limit, which is enough to tell a file that exceeds it. */
  method ReadCandidate(c: Candidate, limit: Option<nat>, disk: Disk) returns (file: InstructionFile)
    ensures file == Read(c, limit, disk)
  {
    hide Scan;
    file := InstructionFile(c.path, c.kind, c.scope, Missing, None, None, 0);
    var entry := disk.look(c.path);
    if entry.NotFound? {
      return;
    }
    if entry.CannotRead? {
      return file.(state := Unreadable);
    }
    var bytes := if limit.None? then entry.bytes else entry.bytes[..Min(limit.value + 1, |entry.bytes|)];
    if |entry.bytes| == 0 {
      return file.(state := Empty);
    }
    file := file.(byteCount := |entry.bytes|);
    if Exceeds(bytes, limit) {
      assert bytes[..limit.value] == entry.bytes[..limit.value];
      var cut := TruncateUtf8(bytes, limit.value);
      if cut.None? {
        return file.(state := Unreadable);
      }
      return file.(state := State.Truncated, content := cut);
    }
    assert bytes == entry.bytes;
    if !IsUtf8(bytes) {
      return file.(state := Unreadable);
    }
    if disk.blank(bytes) {
      return file.(state := Empty);
    }
    return file.(state := Selected, content := Some(bytes));
  }

  // ---- The candidates of one directory ----

  function Remaining(max: nat, used: nat): nat
  {
    if used >= max then 0 else max - used
  }

  function Consumed(file: InstructionFile, remaining: nat): nat
  {
    if file.state == State.Truncated then remaining else if file.content.Some? then |file.content.value| else 0
  }

  function Take(s: Selection, file: InstructionFile): Selection
  {
    var placed := file.(position := Some(|s.chain|));
    s.(files := s.files + [placed], chain := s.chain + [placed])
  }

  /** Looks at the candidates in order up to the first usable one, as long as there is budget. */
  function SelectProject(s: Selection, candidates: seq<Candidate>, max: nat, disk: Disk): Selection
    decreases |candidates|
  {
    var remaining := Remaining(max, s.used);
    if candidates == [] || remaining == 0 then s
    else
      var file := Read(candidates[0], Some(remaining), disk);
      if IsUsable(file) then Take(s, file).(used := s.used + Consumed(file, remaining))
      else SelectProject(s.(files := s.files + [file]), candidates[1..], max, disk)
  }

  function SelectGlobal(s: Selection, candidates: seq<Candidate>, disk: Disk): Selection
    decreases |candidates|
  {
    if candidates == [] then s
    else
      var file := Read(candidates[0], None, disk);
      if IsUsable(file) then Take(s, file)
      else SelectGlobal(s.(files := s.files + [file]), candidates[1..], disk)
  }

  /** One loop serves both: without a budget to count, every candidate may be as long as it is. */
  method SelectCandidates(start: Selection, candidates: seq<Candidate>, max: Option<nat>, disk: Disk)
    returns (s: Selection)
    ensures s == if max.Some? then SelectProject(start, candidates, max.value, disk)
        else SelectGlobal(start, candidates, disk)
  {
    hide Read;
    s := start;
    var i := 0;
    while i < |candidates|
      invariant i <= |candidates| && s.used == start.used
      invariant max.Some? ==>
          SelectProject(start, candidates, max.value, disk) == SelectProject(s, candidates[i..], max.value, disk)
      invariant max.None? ==> SelectGlobal(start, candidates, disk) == SelectGlobal(s, candidates[i..], disk)
    {
      var remaining := if max.Some? then Some(Remaining(max.value, s.used)) else None;
      if remaining == Some(0) {
        return;
      }
      var file := ReadCandidate(candidates[i], remaining, disk);
      if IsUsable(file) {
        s := Take(s, file);
        if remaining.Some? {
          s := s.(used := s.used + Consumed(file, remaining.value));
        }
        return;
      }
      s := s.(files := s.files + [file]);
      assert candidates[i..][1..] == candidates[i + 1..];
      i := i + 1;
    }
  }

  function FallbackCandidates(directory: Path, names: seq<string>, scope: Scope): seq<Candidate>
  {
    if names == [] then []
    else
      var rest := FallbackCandidates(directory, names[1..], scope);
      if names[0] == "AGENTS.override.md" || names[0] == "AGENTS.md" then rest
      else [Candidate(directory + [names[0]], Fallback(names[0]), scope)] + rest
  }

  function OwnCandidates(directory: Path, scope: Scope): seq<Candidate>
  {
    [Candidate(directory + ["AGENTS.override.md"], Override, scope),
     Candidate(directory + ["AGENTS.md"], Standard, scope)]
  }

  function Candidates(directory: Path, root: Path, config: Config): seq<Candidate>
  {
    var scope := if directory == root then ProjectRoot else ProjectNested;
    OwnCandidates(directory, scope) + FallbackCandidates(directory, config.fallbackNames, scope)
  }

  // ---- The directories from the root to the working directory ----

  predicate StartsWith(path: Path, root: Path)
  {
    root <= path
  }

  function Target(root: Path, cwd: Option<Path>): Path
  {
    if cwd.Some? && StartsWith(cwd.value, root) then cwd.value else root
  }

  /** Every directory on the way, outermost first. */
  function Directories(root: Path, target: Path): (directories: seq<Path>)
    requires StartsWith(target, root)
    ensures |directories| == |target| - |root| + 1
    ensures forall i :: 0 <= i < |directories| ==> directories[i] == target[..|root| + i]
  {
    seq(|target| - |root| + 1, i requires 0 <= i <= |target| - |root| => target[..|root| + i])
  }

  method Reverse<T>(s: seq<T>) returns (r: seq<T>)
    ensures |r| == |s| && forall i :: 0 <= i < |s| ==> r[i] == s[|s| - 1 - i]
  {
    r := [];
    for i := 0 to |s|
      invariant |r| == i && forall k :: 0 <= k < i ==> r[k] == s[i - 1 - k]
    {
      r := [s[i]] + r;
    }
  }

  method ProjectDirectories(root: Path, cwd: Option<Path>) returns (directories: seq<Path>)
    ensures directories == Directories(root, Target(root, cwd))
  {
    var target := Target(root, cwd);
    var upwards: seq<Path> := [];
    var current := Some(target);
    while current.Some?
      invariant current.Some? ==> |upwards| <= |target| - |root| && current.value == target[..|target| - |upwards|]
      invariant current.None? ==> |upwards| == |target| - |root| + 1
      invariant forall i :: 0 <= i < |upwards| ==> i <= |target| && upwards[i] == target[..|target| - i]
      decreases if current.Some? then |current.value| + 1 else 0
    {
      var directory := current.value;
      upwards := upwards + [directory];
      if directory == root {
        break;
      }
      SameLength(target, directory, root);
      current := if directory == [] then None else Some(directory[..|directory| - 1]);
    }
    directories := Reverse(upwards);
    assert |upwards| == |target| - |root| + 1;
    assert directories == Directories(root, target);
  }

  lemma SameLength(target: Path, directory: Path, root: Path)
    requires root <= target && directory <= target
    ensures |directory| == |root| ==> directory == root
  {
  }

  // ---- The whole chain ----

  /** The project part: one directory after the other until the budget is used up. */
  function Walk(s: Selection, directories: seq<Path>, k: nat, root: Path, config: Config, max: nat,
                disk: Disk): Selection
    requires k <= |directories|
    decreases |directories| - k
  {
    if k == |directories| then s
    else
      var t := SelectProject(s, Candidates(directories[k], root, config), max, disk);
      if t.used >= max then t else Walk(t, directories, k + 1, root, config, max, disk)
  }

  function Start(codexHome: Option<Path>, disk: Disk): Selection
  {
    if codexHome.None? then Selection([], [], 0)
        else SelectGlobal(Selection([], [], 0), OwnCandidates(codexHome.value, Global), disk)
  }

  function Resolved(codexHome: Option<Path>, root: Option<Path>, cwd: Option<Path>, config: Config,
                    disk: Disk): Selection
  {
    var start := Start(codexHome, disk);
    if root.None? then start
    else Walk(start, Directories(root.value, Target(root.value, cwd)), 0, root.value, config, Max(config.maxBytes, 1),
        disk)
  }

  /** `codexHome` is absent when not given or not absolute; `root` is where the walk starts, if anywhere. */
  method Resolve(codexHome: Option<Path>, root: Option<Path>, cwd: Option<Path>, config: Config, disk: Disk)
    returns (s: Selection)
    ensures s == Resolved(codexHome, root, cwd, config, disk)
  {
    hide SelectProject, SelectGlobal, Candidates, OwnCandidates;
    var max := Max(config.maxBytes, 1);
    s := Selection([], [], 0);
    if codexHome.Some? {
      s := SelectCandidates(s, OwnCandidates(codexHome.value, Global), None, disk);
    }
    if root.Some? {
      ghost var start := s;
      var directories := ProjectDirectories(root.value, cwd);
      var k := 0;
      while k < |directories|
        invariant k <= |directories|
        invariant Walk(start, directories, 0, root.value, config, max, disk) ==
            Walk(s, directories, k, root.value, config, max, disk)
      {
        s := SelectCandidates(s, Candidates(directories[k], root.value, config), Some(max), disk);
        if s.used >= max {
          break;
        }
        k := k + 1;
      }
    }
  }
}
