/** The walk over rollout directories, symbolic links included, and the final list of inputs, src/discovery.rs. */
module Discovery {
  import opened Order

  /** A canonical path: two paths name the same thing exactly when their identities are equal. */
  type Id = Path

  datatype Node = Directory(id: Id) | File(id: Id) | Special | Broken

  /** One name in a directory; `node` is what it leads to, through the link when it is one. */
  datatype Entry = Entry(name: string, node: Node)

  /**
   * A finite directory graph: its directories, what each lists in order of names (nothing when unreadable), and the
   * root.
   */
  datatype Tree = Tree(directories: set<Id>, list: Id -> seq<Entry>, inRoot: Id -> bool, isRollout: string -> bool)

  datatype Input = Input(path: Path, identity: Id, kind: nat)

  ghost predicate IsClosed(tree: Tree)
  {
    forall d, i :: d in tree.directories && 0 <= i < |tree.list(d)| && tree.list(d)[i].node.Directory? ==>
      tree.list(d)[i].node.id in tree.directories
  }

  // ---- What there is to find ----

  /** A file named like a rollout, under the root. */
  predicate IsRolloutFile(tree: Tree, entry: Entry)
  {
    entry.node.File? && tree.isRollout(entry.name) && tree.inRoot(entry.node.id)
  }

  function FilesAmong(tree: Tree, entries: seq<Entry>): set<Id>
  {
    set i | 0 <= i < |entries| && IsRolloutFile(tree, entries[i]) :: entries[i].node.id
  }

  /** The rollout files that these directories list. */
  ghost function FilesOf(tree: Tree, directories: set<Id>): set<Id>
  {
    set d, f | d in directories && f in FilesAmong(tree, tree.list(d)) :: f
  }

  ghost predicate Leads(tree: Tree, d: Id, e: Id)
  {
    tree.inRoot(e) && exists i :: 0 <= i < |tree.list(d)| && tree.list(d)[i].node == Directory(e)
  }

  /** A way from directory to directory that never leaves the root. */
  ghost predicate IsRoute(tree: Tree, route: seq<Id>)
  {
    && route != [] && tree.inRoot(route[0])
    && forall i :: 0 <= i < |route| - 1 ==> Leads(tree, route[i], route[i + 1])
  }

  ghost predicate Reaches(tree: Tree, from: Id, to: Id)
  {
    exists route :: IsRoute(tree, route) && route[0] == from && route[|route| - 1] == to
  }

  /** Every directory the entries lead to under the root is in the set. */
  ghost predicate ChildrenIn(tree: Tree, entries: seq<Entry>, visited: set<Id>)
  {
    forall i :: 0 <= i < |entries| && entries[i].node.Directory? && tree.inRoot(entries[i].node.id) ==>
        entries[i].node.id in visited
  }

  function Identities(inputs: seq<Input>): set<Id>
  {
    set i | 0 <= i < |inputs| :: inputs[i].identity
  }

  /** The names lead from one node to another, through directories under the root. */
  ghost predicate NamesLead(tree: Tree, from: Node, names: Path, to: Node)
    decreases |names|
  {
    if names == [] then from == to
    else
      from.Directory? && tree.inRoot(from.id)
      && exists i: nat :: i < |tree.list(from.id)| && tree.list(from.id)[i].name == names[0]
                          && NamesLead(tree, tree.list(from.id)[i].node, names[1..], to)
  }

  /** A rollout file under the root, recorded under a path that leads to it from here. */
  ghost predicate IsFound(tree: Tree, path: Path, node: Node, input: Input)
  {
    exists names: Path :: IsFoundBy(tree, path, node, input, names)
  }

  ghost predicate IsFoundBy(tree: Tree, path: Path, node: Node, input: Input, names: Path)
  {
    && names != [] && input.path == path + names && NamesLead(tree, node, names, File(input.identity))
    && tree.isRollout(names[|names| - 1]) && tree.inRoot(input.identity)
  }

  /** What was added to the list: found here, and of the kind looked for. */
  ghost predicate AddsFound(tree: Tree, path: Path, node: Node, kind: nat, before: seq<Input>, after: seq<Input>)
  {
    && |before| <= |after| && after[..|before|] == before
    && forall k :: |before| <= k < |after| ==> after[k].kind == kind && IsFound(tree, path, node, after[k])
  }

  // ---- Facts used by the walk ----

  /** What is found below an entry is found here. */
  lemma FoundBelow(tree: Tree, path: Path, d: Id, i: nat, kind: nat, start: seq<Input>, before: seq<Input>,
                   after: seq<Input>)
    requires tree.inRoot(d) && i < |tree.list(d)|
    requires AddsFound(tree, path, Directory(d), kind, start, before)
    requires AddsFound(tree, path + [tree.list(d)[i].name], tree.list(d)[i].node, kind, before, after)
    ensures AddsFound(tree, path, Directory(d), kind, start, after)
  {
    hide NamesLead;
    var entry := tree.list(d)[i];
    assert after[..|start|] == after[..|before|][..|start|];
    forall k | |start| <= k < |after| ensures after[k].kind == kind && IsFound(tree, path, Directory(d), after[k]) {
      if k < |before| {
        assert after[k] == after[..|before|][k];
      } else {
        FoundBelowOne(tree, path, d, i, after[k]);
      }
    }
  }

  lemma FoundBelowOne(tree: Tree, path: Path, d: Id, i: nat, input: Input)
    requires tree.inRoot(d) && i < |tree.list(d)|
    requires IsFound(tree, path + [tree.list(d)[i].name], tree.list(d)[i].node, input)
    ensures IsFound(tree, path, Directory(d), input)
  {
    hide IsFoundBy;
    var entry := tree.list(d)[i];
    var names: Path :| IsFoundBy(tree, path + [entry.name], entry.node, input, names);
    FoundByOneMore(tree, path, d, i, input, names);
  }

  lemma FoundByOneMore(tree: Tree, path: Path, d: Id, i: nat, input: Input, names: Path)
    requires tree.inRoot(d) && i < |tree.list(d)|
    requires IsFoundBy(tree, path + [tree.list(d)[i].name], tree.list(d)[i].node, input, names)
    ensures IsFoundBy(tree, path, Directory(d), input, [tree.list(d)[i].name] + names)
  {
    LeadsOn(tree, d, i, names, File(input.identity));
    hide NamesLead;
    var name := tree.list(d)[i].name;
    assert ([name] + names)[|names|] == names[|names| - 1] && path + ([name] + names) == (path + [name]) + names;
  }

  lemma LeadsOn(tree: Tree, d: Id, i: nat, names: Path, to: Node)
    requires tree.inRoot(d) && i < |tree.list(d)| && NamesLead(tree, tree.list(d)[i].node, names, to)
    ensures NamesLead(tree, Directory(d), [tree.list(d)[i].name] + names, to)
  {
    assert ([tree.list(d)[i].name] + names)[1..] == names;
  }

  /** A rollout file listed here is found here. */
  lemma FoundHere(tree: Tree, path: Path, d: Id, i: nat, kind: nat, start: seq<Input>, before: seq<Input>)
    requires tree.inRoot(d) && i < |tree.list(d)| && IsRolloutFile(tree, tree.list(d)[i])
    requires AddsFound(tree, path, Directory(d), kind, start, before)
    ensures var entry := tree.list(d)[i];
            AddsFound(tree, path, Directory(d), kind, start,
                      before + [Input(path + [entry.name], entry.node.id, kind)])
  {
    var entry := tree.list(d)[i];
    var input := Input(path + [entry.name], entry.node.id, kind);
    var names := [entry.name];
    assert names[1..] == [] && NamesLead(tree, entry.node, names[1..], entry.node);
    assert NamesLead(tree, Directory(d), names, File(input.identity));
    assert IsFoundBy(tree, path, Directory(d), input, names);
    hide NamesLead, IsFoundBy;
    var after := before + [input];
    assert after[..|start|] == before[..|start|];
  }

  lemma NothingAdded(tree: Tree, path: Path, node: Node, kind: nat, inputs: seq<Input>)
    ensures AddsFound(tree, path, node, kind, inputs, inputs)
  {
    assert inputs[..|inputs|] == inputs;
  }

  lemma ReachesItself(tree: Tree, d: Id)
    requires tree.inRoot(d)
    ensures Reaches(tree, d, d)
  {
    assert IsRoute(tree, [d]);
  }

  lemma ReachesThrough(tree: Tree, from: Id, e: Id, to: Id)
    requires tree.inRoot(from) && Leads(tree, from, e) && Reaches(tree, e, to)
    ensures Reaches(tree, from, to)
  {
    hide Leads;
    var route :| IsRoute(tree, route) && route[0] == e && route[|route| - 1] == to;
    var longer := [from] + route;
    forall i | 0 <= i < |longer| - 1 ensures Leads(tree, longer[i], longer[i + 1]) {
      if i > 0 {
        assert longer[i] == route[i - 1] && longer[i + 1] == route[i];
      }
    }
    assert IsRoute(tree, longer);
  }

  lemma FilesOfUnion(tree: Tree, a: set<Id>, b: set<Id>)
    ensures FilesOf(tree, a + b) == FilesOf(tree, a) + FilesOf(tree, b)
  {
    hide FilesAmong;
  }

  lemma FilesOfOne(tree: Tree, d: Id)
    ensures FilesOf(tree, {d}) == FilesAmong(tree, tree.list(d))
  {
    hide FilesAmong;
  }

  lemma IdentitiesSnoc(inputs: seq<Input>, input: Input)
    ensures Identities(inputs + [input]) == Identities(inputs) + {input.identity}
  {
    var more := inputs + [input];
    assert forall i :: 0 <= i < |inputs| ==> more[i] == inputs[i];
    assert more[|inputs|] == input;
    forall f ensures f in Identities(more) <==> f in Identities(inputs) + {input.identity} {
      if f in Identities(inputs) {
        var i :| 0 <= i < |inputs| && inputs[i].identity == f;
        assert more[i].identity == f;
      }
    }
  }

  lemma FilesAmongSnoc(tree: Tree, entries: seq<Entry>, i: nat)
    requires i < |entries|
    ensures FilesAmong(tree, entries[..i + 1]) == FilesAmong(tree, entries[..i])
            + if IsRolloutFile(tree, entries[i]) then {entries[i].node.id} else {}
  {
    var before, after := entries[..i], entries[..i + 1];
    assert forall k :: 0 <= k < i ==> after[k] == before[k];
    forall f ensures f in FilesAmong(tree, after) <==>
                     f in FilesAmong(tree, before) || (IsRolloutFile(tree, entries[i]) && f == entries[i].node.id)
    {
      if f in FilesAmong(tree, before) {
        var k :| 0 <= k < |before| && IsRolloutFile(tree, before[k]) && before[k].node.id == f;
        assert IsRolloutFile(tree, after[k]) && after[k].node.id == f;
      }
    }
  }

  /** Everything reached from a directory lies in any set that holds it and is closed under leading on. */
  lemma {:induction false} ReachedIsIn(tree: Tree, visited: set<Id>, route: seq<Id>)
    requires IsRoute(tree, route) && route[0] in visited
    requires forall d :: d in visited ==> ChildrenIn(tree, tree.list(d), visited)
    ensures route[|route| - 1] in visited
  {
    if |route| > 1 {
      var n := |route| - 1;
      ReachedIsIn(tree, visited, route[..n]);
      assert Leads(tree, route[n - 1], route[n]);
      assert route[..n][n - 1] in visited;
    }
  }

  // ---- The walk ----

  class Walker {
    const tree: Tree
    const kind: nat
    var visited: set<Id>
    var inputs: seq<Input>

    constructor (tree: Tree, kind: nat)
      ensures this.tree == tree && this.kind == kind && visited == {} && inputs == []
    {
      this.tree, this.kind := tree, kind;
      visited, inputs := {}, [];
    }

    method AddInput(path: Path, node: Node)
      requires node.File?
      modifies this`inputs
      ensures inputs == if tree.inRoot(node.id) then old(inputs) + [Input(path, node.id, kind)] else old(inputs)
    {
      if tree.inRoot(node.id) {
        inputs := inputs + [Input(path, node.id, kind)];
      }
    }

    /**
     * Visits what was not visited before. What is visited now is reached from `node` without leaving the root, all its
     * children are visited too, and the inputs added are exactly its rollout files under the root.
     */
    method Walk(path: Path, node: Node)
      requires IsClosed(tree) && visited <= tree.directories && (node.Directory? ==> node.id in tree.directories)
      modifies this
      ensures old(visited) <= visited <= tree.directories
      ensures node.Directory? && tree.inRoot(node.id) ==> node.id in visited
      ensures forall d :: d in visited - old(visited) ==> ChildrenIn(tree, tree.list(d), visited)
      ensures forall d :: d in visited - old(visited) ==>
          node.Directory? && tree.inRoot(node.id) && Reaches(tree, node.id, d)
      ensures Identities(inputs) == Identities(old(inputs)) + FilesOf(tree, visited - old(visited))
      ensures AddsFound(tree, path, node, kind, old(inputs), inputs)
      decreases tree.directories - visited
    {
      hide IsRolloutFile, FilesAmong, FilesOf, Identities, Reaches, Leads, AddsFound;
      assert visited - visited == {};
      NoFiles(tree);
      NothingAdded(tree, path, node, kind, inputs);
      if !node.Directory? || !tree.inRoot(node.id) || node.id in visited {
        return;
      }
      visited := visited + {node.id};
      ghost var start := old(visited);
      ReachesItself(tree, node.id);
      assert visited - start - {node.id} == {};
      var entries := tree.list(node.id);
      for i := 0 to |entries|
        invariant start + {node.id} <= visited <= tree.directories
        invariant ChildrenIn(tree, entries[..i], visited)
        invariant forall d :: d in visited - start && d != node.id ==> ChildrenIn(tree, tree.list(d), visited)
        invariant forall d :: d in visited - start ==> Reaches(tree, node.id, d)
        invariant Identities(inputs) ==
                  Identities(old(inputs)) + FilesOf(tree, visited - start - {node.id}) + FilesAmong(tree, entries[..i])
        invariant AddsFound(tree, path, node, kind, old(inputs), inputs)
      {
        var entry := entries[i];
        ghost var before, known := visited, inputs;
        FilesAmongSnoc(tree, entries, i);
        EntryIsClosed(tree, node.id, i);
        if entry.node.Directory? {
          Walk(path + [entry.name], entry.node);
          FilesOfUnion(tree, before - start - {node.id}, visited - before);
          assert visited - start - {node.id} == (before - start - {node.id}) + (visited - before);
          ReachedThroughEntry(tree, node.id, i, visited - before);
          FoundBelow(tree, path, node.id, i, kind, old(inputs), known, inputs);
          NotAFile(tree, entry);
        } else if entry.node.File? {
          if tree.isRollout(entry.name) {
            IdentitiesSnoc(inputs, Input(path + [entry.name], entry.node.id, kind));
            AddInput(path + [entry.name], entry.node);
          }
          IsFile(tree, entry);
          if IsRolloutFile(tree, entry) {
            FoundHere(tree, path, node.id, i, kind, old(inputs), known);
          }
        } else {
          NotAFile(tree, entry);
        }
        ChildrenSnoc(tree, entries, i, visited, before);
      }
      assert entries[..|entries|] == entries;
      FilesOfUnion(tree, visited - start - {node.id}, {node.id});
      FilesOfOne(tree, node.id);
      assert visited - start == (visited - start - {node.id}) + {node.id};
    }
  }

  lemma NoFiles(tree: Tree)
    ensures FilesOf(tree, {}) == {} && FilesAmong(tree, []) == {}
  {
  }

  lemma EntryIsClosed(tree: Tree, d: Id, i: nat)
    requires IsClosed(tree) && d in tree.directories && i < |tree.list(d)|
    ensures tree.list(d)[i].node.Directory? ==> tree.list(d)[i].node.id in tree.directories
  {
  }

  lemma NotAFile(tree: Tree, entry: Entry)
    ensures !entry.node.File? ==> !IsRolloutFile(tree, entry)
  {
  }

  lemma IsFile(tree: Tree, entry: Entry)
    ensures entry.node.File? ==>
        IsRolloutFile(tree, entry) == (tree.isRollout(entry.name) && tree.inRoot(entry.node.id))
  {
  }

  lemma ReachedThroughEntry(tree: Tree, d: Id, i: nat, reached: set<Id>)
    requires tree.inRoot(d) && i < |tree.list(d)| && tree.list(d)[i].node.Directory?
    requires forall e :: e in reached ==> Reaches(tree, tree.list(d)[i].node.id, e)
    requires reached != {} ==> tree.inRoot(tree.list(d)[i].node.id)
    ensures forall e :: e in reached ==> Reaches(tree, d, e)
  {
    hide Reaches;
    forall e | e in reached ensures Reaches(tree, d, e) {
      assert Leads(tree, d, tree.list(d)[i].node.id);
      ReachesThrough(tree, d, tree.list(d)[i].node.id, e);
    }
  }

  lemma ChildrenSnoc(tree: Tree, entries: seq<Entry>, i: nat, visited: set<Id>, before: set<Id>)
    requires i < |entries| && before <= visited && ChildrenIn(tree, entries[..i], before)
    requires entries[i].node.Directory? && tree.inRoot(entries[i].node.id) ==> entries[i].node.id in visited
    ensures ChildrenIn(tree, entries[..i + 1], visited)
    ensures forall d :: ChildrenIn(tree, tree.list(d), before) ==> ChildrenIn(tree, tree.list(d), visited)
  {
    forall k | 0 <= k < i + 1 && entries[k].node.Directory? && tree.inRoot(entries[k].node.id)
        ensures entries[k].node.id in visited {
      if k < i {
        assert entries[..i][k] == entries[k];
      }
    }
  }

  /** The directories a walk from `start` can get to without leaving the root. */
  ghost function Reachable(tree: Tree, start: Node): set<Id>
  {
    set d | d in tree.directories && start.Directory? && Reaches(tree, start.id, d)
  }

  /**
   * From a fresh start the inputs are, by identity, exactly the rollout files of the reachable directories, each
   * recorded under a path that leads to it.
   */
  method WalkRolloutTree(path: Path, start: Node, tree: Tree, kind: nat) returns (inputs: seq<Input>)
    requires IsClosed(tree) && (start.Directory? ==> start.id in tree.directories)
    ensures Identities(inputs) == FilesOf(tree, Reachable(tree, start))
    ensures forall input :: input in inputs ==> input.kind == kind && IsFound(tree, path, start, input)
  {
    hide FilesOf, FilesAmong, Identities, Leads, IsFound;
    var walker := new Walker(tree, kind);
    NoInputs();
    walker.Walk(path, start);
    ghost var visited := walker.visited;
    inputs := walker.inputs;
    assert visited - {} == visited;
    forall d ensures d in visited <==> d in Reachable(tree, start) {
      if d in Reachable(tree, start) {
        var route :| IsRoute(tree, route) && route[0] == start.id && route[|route| - 1] == d;
        ReachedIsIn(tree, visited, route);
      }
    }
    assert visited == Reachable(tree, start);
  }

  lemma NoInputs()
    ensures Identities([]) == {}
  {
  }

  // ---- The final list ----

  predicate InputLess(a: Input, b: Input)
  {
    PathLess(a.path, b.path)
    || (a.path == b.path && (PathLess(a.identity, b.identity) || (a.identity == b.identity && a.kind < b.kind)))
  }

  lemma InputOrder()
    ensures StrictTotal(InputLess) && StrictWeak(InputLess)
  {
    PathOrder();
    hide PathLess;
    forall a, b ensures InputLess(a, b) || a == b || InputLess(b, a) {
      Trichotomy(PathLess, a.path, b.path);
      Trichotomy(PathLess, a.identity, b.identity);
    }
    assert forall a, b, c :: InputLess(a, b) && InputLess(b, c) ==> InputLess(a, c);
  }

  /** Keeps the first input of each identity. */
  function FirstOfEach(inputs: seq<Input>): seq<Input>
  {
    if inputs == [] then []
    else
      var init, last := inputs[..|inputs| - 1], inputs[|inputs| - 1];
      FirstOfEach(init) + if last.identity in Identities(init) then [] else [last]
  }

  method Retain(inputs: seq<Input>) returns (kept: seq<Input>)
    ensures kept == FirstOfEach(inputs)
  {
    hide Identities;
    var seen := {};
    kept := [];
    NoInputs();
    for i := 0 to |inputs|
      invariant kept == FirstOfEach(inputs[..i]) && seen == Identities(inputs[..i])
    {
      assert inputs[..i + 1][..i] == inputs[..i] && inputs[..i + 1] == inputs[..i] + [inputs[i]];
      IdentitiesSnoc(inputs[..i], inputs[i]);
      if inputs[i].identity !in seen {
        seen := seen + {inputs[i].identity};
        kept := kept + [inputs[i]];
      }
      assert seen == Identities(inputs[..i + 1]);
    }
    assert inputs[..|inputs|] == inputs;
  }

  ghost predicate OneOfEach(inputs: seq<Input>)
  {
    forall i, j :: 0 <= i < j < |inputs| ==> inputs[i].identity != inputs[j].identity
  }

  lemma {:induction false} FirstOfEachMembers(inputs: seq<Input>)
    ensures var kept := FirstOfEach(inputs);
            OneOfEach(kept) && Identities(kept) == Identities(inputs) && forall x :: x in kept ==> x in inputs
  {
    hide Identities;
    if inputs == [] {
      NoInputs();
    } else {
      var init, last := inputs[..|inputs| - 1], inputs[|inputs| - 1];
      var kept := FirstOfEach(init);
      FirstOfEachMembers(init);
      IdentitiesSnoc(init, last);
      IdentitiesSnoc(kept, last);
      MembersAreIdentified(kept, last.identity);
      assert inputs == init + [last] && kept + [] == kept;
    }
  }

  lemma NoneGreater(inputs: seq<Input>)
    requires inputs != [] && SortedBy(InputLess, inputs)
    ensures forall x :: x in inputs ==> !InputLess(inputs[|inputs| - 1], x)
    ensures SortedBy(InputLess, inputs[..|inputs| - 1])
  {
    Irreflexive(inputs[|inputs| - 1]);
    hide InputLess;
    var n := |inputs| - 1;
    forall x | x in inputs ensures !InputLess(inputs[n], x) {
      var i :| 0 <= i < |inputs| && inputs[i] == x;
    }
  }

  lemma SortedAfter(kept: seq<Input>, last: Input)
    requires SortedBy(InputLess, kept) && forall x :: x in kept ==> !InputLess(last, x)
    ensures SortedBy(InputLess, kept + [last])
  {
    hide InputLess;
  }

  ghost predicate KeepsLeast(kept: seq<Input>, inputs: seq<Input>)
  {
    forall x, y :: x in kept && y in inputs && x.identity == y.identity ==> !InputLess(y, x)
  }

  lemma LeastAfter(kept: seq<Input>, init: seq<Input>, last: Input)
    requires KeepsLeast(kept, init) && forall x :: x in kept ==> x in init && !InputLess(last, x)
    ensures KeepsLeast(kept, init + [last])
    ensures (forall x :: x in init ==> x.identity != last.identity) ==> KeepsLeast(kept + [last], init + [last])
  {
    Irreflexive(last);
    hide InputLess;
  }

  /**
   * What is kept, in terms of what there was: in the same order, no identity twice or lost, each time the least one.
   */
  lemma {:induction false} FirstOfEachIs(inputs: seq<Input>)
    requires SortedBy(InputLess, inputs)
    ensures var kept := FirstOfEach(inputs); SortedBy(InputLess, kept) && KeepsLeast(kept, inputs)
  {
    hide InputLess, Identities, SortedBy;
    if inputs == [] {
      NothingSorted(InputLess);
    } else {
      var init, last := inputs[..|inputs| - 1], inputs[|inputs| - 1];
      NoneGreater(inputs);
      FirstOfEachIs(init);
      FirstOfEachMembers(init);
      assert inputs == init + [last];
      var kept := FirstOfEach(init);
      forall x | x in kept ensures x in init && !InputLess(last, x) {
        assert x in inputs;
      }
      SortedAfter(kept, last);
      LeastAfter(kept, init, last);
      MembersAreIdentified(init, last.identity);
      hide KeepsLeast;
      assert kept + [] == kept;
    }
  }

  lemma MembersAreIdentified(inputs: seq<Input>, f: Id)
    ensures f !in Identities(inputs) ==> forall x :: x in inputs ==> x.identity != f
  {
  }

  lemma Irreflexive(x: Input)
    ensures !InputLess(x, x)
  {
    PathOrder();
    hide PathLess;
    assert !PathLess(x.path, x.path) && !PathLess(x.identity, x.identity);
  }

  lemma SameIdentities(a: seq<Input>, b: seq<Input>)
    requires multiset(a) == multiset(b)
    ensures Identities(a) == Identities(b) && forall x :: x in a <==> x in b
  {
    assert forall x :: x in a <==> x in multiset(a);
    assert forall x :: x in b <==> x in multiset(b);
    forall f ensures f in Identities(a) <==> f in Identities(b) {
      if f in Identities(a) {
        var i :| 0 <= i < |a| && a[i].identity == f;
        assert a[i] in b;
      }
      if f in Identities(b) {
        var i :| 0 <= i < |b| && b[i].identity == f;
        assert b[i] in a;
      }
    }
  }

  /** Paths ascend, and identities where paths are equal. */
  ghost predicate InPathOrder(inputs: seq<Input>)
  {
    forall i, j :: 0 <= i < j < |inputs| ==>
      || PathLess(inputs[i].path, inputs[j].path)
      || (inputs[i].path == inputs[j].path && PathLess(inputs[i].identity, inputs[j].identity))
  }

  /** Of each identity the one of the least path is kept, and of those the one of the least kind. */
  ghost predicate KeepsLeastPath(kept: seq<Input>, inputs: seq<Input>)
  {
    forall x, y :: x in kept && y in inputs && x.identity == y.identity ==>
      PathLess(x.path, y.path) || (x.path == y.path && x.kind <= y.kind)
  }

  lemma OrderedByPath(kept: seq<Input>, inputs: seq<Input>)
    requires SortedBy(InputLess, kept) && OneOfEach(kept) && KeepsLeast(kept, inputs)
    ensures InPathOrder(kept) && KeepsLeastPath(kept, inputs)
  {
    PathOrder();
    hide PathLess;
    forall i, j | 0 <= i < j < |kept|
      ensures || PathLess(kept[i].path, kept[j].path)
              || (kept[i].path == kept[j].path && PathLess(kept[i].identity, kept[j].identity))
    {
      assert !InputLess(kept[j], kept[i]);
      Trichotomy(PathLess, kept[i].path, kept[j].path);
      Trichotomy(PathLess, kept[i].identity, kept[j].identity);
    }
    forall x, y | x in kept && y in inputs && x.identity == y.identity
      ensures PathLess(x.path, y.path) || (x.path == y.path && x.kind <= y.kind)
    {
      assert !InputLess(y, x);
      Trichotomy(PathLess, x.path, y.path);
    }
  }

  /**
   * Whatever was collected in whatever order: the list is sorted, holds each identity once, and keeps its least path.
   */
  method Finish(collected: seq<Input>) returns (inputs: seq<Input>)
    ensures inputs == FirstOfEach(Sort(InputLess, collected))
    ensures SortedBy(InputLess, inputs) && OneOfEach(inputs) && Identities(inputs) == Identities(collected)
    ensures InPathOrder(inputs) && KeepsLeastPath(inputs, collected)
  {
    hide InputLess, Identities, FirstOfEach, SortedBy, OneOfEach, Sort;
    var sorted := Sort(InputLess, collected);
    InputOrder();
    SortIs(InputLess, collected);
    SameIdentities(sorted, collected);
    FirstOfEachIs(sorted);
    FirstOfEachMembers(sorted);
    inputs := Retain(sorted);
    OrderedByPath(inputs, collected);
  }
}
