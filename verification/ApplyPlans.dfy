/** Which batches can be planned and what a plan holds, told proposal by proposal, src/advisor/apply.rs. */
module ApplyPlans {
  import opened Wrappers
  import opened Slices
  import opened Order
  import opened Apply
  import opened ApplyRun

  // ---- Single changes ----

  predicate IsChange(batch: seq<Reviewed>, i: nat, k: nat)
  {
    i < |batch| && k < |batch[i].prepared|
  }

  /** The change is planned for the canonical path, with the texts as reviewed and the hash expected of the old one. */
  predicate Plans(p: PlannedChange, r: Reviewed, c: PreparedChange)
  {
    && c.path in r.canonical && p.path == r.canonical[c.path] && p.before == c.before && p.after == c.after
    && c.path in r.hashes && p.expectedHash == r.hashes[c.path]
  }

  /** A proposal is in order when it was accepted, writes what it may write, and its old texts have their hashes. */
  ghost predicate InOrder(r: Reviewed, hash: string -> string)
  {
    && r.accepted
    && (forall k: nat :: k < |r.prepared| ==> r.prepared[k].path in r.allowed)
    && (forall p :: p in r.allowed ==> exists k: nat :: k < |r.prepared| && r.prepared[k].path == p)
    && forall k: nat :: k < |r.prepared| ==>
         var c := r.prepared[k];
         c.path in r.canonical && c.path in r.hashes && r.hashes[c.path] == hash(c.before)
  }

  lemma InOrderIs(r: Reviewed, hash: string -> string)
    ensures ReviewOk(r, hash) <==> InOrder(r, hash)
  {
    var paths := set c | c in r.prepared :: c.path;
    assert forall k :: 0 <= k < |r.prepared| ==> r.prepared[k] in r.prepared;
    if ReviewOk(r, hash) {
      forall k: nat | k < |r.prepared| ensures r.prepared[k].path in r.allowed {
        assert r.prepared[k].path in paths;
      }
      forall p | p in r.allowed ensures exists k: nat :: k < |r.prepared| && r.prepared[k].path == p {
        assert p in paths;
        var c :| c in r.prepared && c.path == p;
        var k: nat :| k < |r.prepared| && r.prepared[k] == c;
      }
    }
    if InOrder(r, hash) {
      forall p ensures p in paths <==> p in r.allowed {
        if p in paths {
          var c :| c in r.prepared && c.path == p;
          var k: nat :| k < |r.prepared| && r.prepared[k] == c;
        }
      }
      assert paths == r.allowed;
    }
  }

  lemma PlansIs(r: Reviewed, hash: string -> string, k: nat)
    requires InOrder(r, hash) && k < |r.prepared|
    ensures Plans(ToPlanned(r, r.prepared[k]), r, r.prepared[k])
  {
  }

  // ---- All changes of a batch ----

  /** Where the changes of proposal i start among all of them. */
  function StartOf(batch: seq<Reviewed>, i: nat): nat
    requires i <= |batch|
  {
    if i == 0 then 0 else StartOf(batch, i - 1) + |batch[i - 1].prepared|
  }

  lemma {:induction false} StartsAscend(batch: seq<Reviewed>, i: nat, j: nat)
    requires i < j <= |batch|
    ensures StartOf(batch, i) + |batch[i].prepared| <= StartOf(batch, j)
  {
    if i < j - 1 {
      StartsAscend(batch, i, j - 1);
    }
  }

  lemma {:induction false} ChangeAt(batch: seq<Reviewed>, n: nat, i: nat, k: nat)
    requires n <= |batch| && i < n && k < |batch[i].prepared|
    ensures |AllChanges(batch[..n])| == StartOf(batch, n)
    ensures StartOf(batch, i) + k < StartOf(batch, n)
    ensures AllChanges(batch[..n])[StartOf(batch, i) + k] == ToPlanned(batch[i], batch[i].prepared[k])
  {
    hide ToPlanned, AllChanges;
    AllChangesSnoc(batch, n - 1);
    HowManyChanges(batch, n - 1);
    if i < n - 1 {
      ChangeAt(batch, n - 1, i, k);
    }
  }

  lemma {:induction false} HowManyChanges(batch: seq<Reviewed>, n: nat)
    requires n <= |batch|
    ensures |AllChanges(batch[..n])| == StartOf(batch, n)
  {
    if n > 0 {
      HowManyChanges(batch, n - 1);
      AllChangesSnoc(batch, n - 1);
    } else {
      assert batch[..0] == [];
    }
  }

  /** Every position is that of a change. */
  lemma {:induction false} ChangeOf(batch: seq<Reviewed>, n: nat, at: nat) returns (i: nat, k: nat)
    requires n <= |batch| && at < StartOf(batch, n)
    ensures i < n && k < |batch[i].prepared| && at == StartOf(batch, i) + k
  {
    if at < StartOf(batch, n - 1) {
      i, k := ChangeOf(batch, n - 1, at);
    } else {
      i, k := n - 1, at - StartOf(batch, n - 1);
    }
  }

  ghost predicate CanonicalApart(batch: seq<Reviewed>)
  {
    forall i: nat, k: nat, j: nat, l: nat ::
      IsChange(batch, i, k) && IsChange(batch, j, l) && (i != j || k != l) ==>
        CanonicalOf(batch, i, k) != CanonicalOf(batch, j, l)
  }

  function CanonicalOf(batch: seq<Reviewed>, i: nat, k: nat): Path
    requires IsChange(batch, i, k)
  {
    var r := batch[i];
    var path := r.prepared[k].path;
    if path in r.canonical then r.canonical[path] else []
  }

  lemma ChangeAtIs(batch: seq<Reviewed>, i: nat, k: nat)
    requires IsChange(batch, i, k)
    ensures var all, at := AllChanges(batch), StartOf(batch, i) + k;
            && at < |all| && all[at] == ToPlanned(batch[i], batch[i].prepared[k])
            && all[at].path == CanonicalOf(batch, i, k)
  {
    assert batch[..|batch|] == batch;
    ChangeAt(batch, |batch|, i, k);
    hide AllChanges, StartOf;
  }

  lemma PositionsApart(batch: seq<Reviewed>, i: nat, k: nat, j: nat, l: nat)
    requires IsChange(batch, i, k) && IsChange(batch, j, l) && (i != j || k != l)
    ensures StartOf(batch, i) + k != StartOf(batch, j) + l
  {
    hide StartOf;
    if i < j {
      StartsAscend(batch, i, j);
    } else if j < i {
      StartsAscend(batch, j, i);
    }
  }

  lemma DistinctIff(batch: seq<Reviewed>)
    ensures DistinctPaths(AllChanges(batch)) <==> CanonicalApart(batch)
  {
    hide AllChanges, StartOf, ToPlanned, CanonicalOf, IsChange;
    var all := AllChanges(batch);
    assert batch[..|batch|] == batch;
    HowManyChanges(batch, |batch|);
    if DistinctPaths(all) {
      forall i: nat, k: nat, j: nat, l: nat |
        IsChange(batch, i, k) && IsChange(batch, j, l) && (i != j || k != l)
        ensures CanonicalOf(batch, i, k) != CanonicalOf(batch, j, l)
      {
        ChangeAtIs(batch, i, k);
        ChangeAtIs(batch, j, l);
        PositionsApart(batch, i, k, j, l);
      }
    }
    if CanonicalApart(batch) {
      forall a, b | 0 <= a < b < |all| ensures all[a].path != all[b].path {
        var i, k := ChangeOf(batch, |batch|, a);
        var j, l := ChangeOf(batch, |batch|, b);
        IsOne(batch, i, k);
        IsOne(batch, j, l);
        ChangeAtIs(batch, i, k);
        ChangeAtIs(batch, j, l);
      }
    }
  }

  lemma IsOne(batch: seq<Reviewed>, i: nat, k: nat)
    requires i < |batch| && k < |batch[i].prepared|
    ensures IsChange(batch, i, k)
  {
  }

  // ---- The plan ----

  ghost predicate ChangesSomething(batch: seq<Reviewed>)
  {
    exists i: nat, k: nat :: IsChange(batch, i, k) && batch[i].prepared[k].before != batch[i].prepared[k].after
  }

  /**
   * A batch can be planned exactly when it is not empty, every proposal is in order, no two changes, of one proposal or
   * of two, are for one file, and one of them changes something.
   */
  lemma AcceptableIff(batch: seq<Reviewed>, hash: string -> string)
    ensures Acceptable(batch, hash) <==>
            && batch != []
            && (forall i: nat :: i < |batch| ==> InOrder(batch[i], hash))
            && CanonicalApart(batch)
            && ChangesSomething(batch)
  {
    DistinctIff(batch);
    forall r ensures ReviewOk(r, hash) <==> InOrder(r, hash) {
      InOrderIs(r, hash);
    }
    ChangesSomethingIff(batch);
    hide ReviewOk, InOrder, DistinctPaths, CanonicalApart, AllChanges, ChangesSomething;
    assert (forall r :: r in batch ==> ReviewOk(r, hash)) <==> forall i: nat :: i < |batch| ==> InOrder(batch[i], hash);
  }

  lemma ChangesSomethingIff(batch: seq<Reviewed>)
    ensures ChangesSomething(batch) <==> exists c :: c in AllChanges(batch) && c.before != c.after
  {
    var all := AllChanges(batch);
    assert batch[..|batch|] == batch;
    HowManyChanges(batch, |batch|);
    hide AllChanges, StartOf, CanonicalOf;
    if ChangesSomething(batch) {
      var i: nat, k: nat :| IsChange(batch, i, k) && batch[i].prepared[k].before != batch[i].prepared[k].after;
      ChangeAtIs(batch, i, k);
      assert all[StartOf(batch, i) + k] in all;
    }
    if c :| c in all && c.before != c.after {
      var at: nat :| at < |all| && all[at] == c;
      var i, k := ChangeOf(batch, |batch|, at);
      ChangeAtIs(batch, i, k);
    }
  }

  ghost predicate HasPlan(changes: seq<PlannedChange>, r: Reviewed, c: PreparedChange)
  {
    exists p :: p in changes && Plans(p, r, c)
  }

  ghost predicate IsPlanned(p: PlannedChange, batch: seq<Reviewed>)
  {
    exists i: nat, k: nat :: IsChange(batch, i, k) && Plans(p, batch[i], batch[i].prepared[k])
  }

  lemma PlannedAt(batch: seq<Reviewed>, hash: string -> string, i: nat, k: nat)
    requires (forall i: nat :: i < |batch| ==> InOrder(batch[i], hash)) && IsChange(batch, i, k)
    ensures var all, at := AllChanges(batch), StartOf(batch, i) + k;
            && at < |all| && all[at] in all && Plans(all[at], batch[i], batch[i].prepared[k])
            && HasPlan(all, batch[i], batch[i].prepared[k]) && IsPlanned(all[at], batch)
  {
    ChangeAtIs(batch, i, k);
    PlansIs(batch[i], hash, k);
    hide AllChanges, StartOf, CanonicalOf, ToPlanned, InOrder, Plans;
  }

  lemma {:induction false} AllArePlanned(batch: seq<Reviewed>, hash: string -> string, p: PlannedChange)
    requires (forall i: nat :: i < |batch| ==> InOrder(batch[i], hash)) && p in AllChanges(batch)
    ensures IsPlanned(p, batch)
  {
    var all := AllChanges(batch);
    assert batch[..|batch|] == batch;
    HowManyChanges(batch, |batch|);
    hide AllChanges, InOrder, IsPlanned;
    var place: nat :| place < |all| && all[place] == p;
    var i, k := ChangeOf(batch, |batch|, place);
    hide StartOf;
    PlannedAt(batch, hash, i, k);
  }

  /** A plan holds one change for each change of the batch, as reviewed, and no other. */
  lemma PlanIs(batch: seq<Reviewed>, hash: string -> string, changes: seq<PlannedChange>)
    requires (forall i: nat :: i < |batch| ==> InOrder(batch[i], hash))
    requires multiset(changes) == multiset(AllChanges(batch))
    ensures |changes| == StartOf(batch, |batch|)
    ensures forall i: nat, k: nat :: IsChange(batch, i, k) ==> HasPlan(changes, batch[i], batch[i].prepared[k])
    ensures forall p :: p in changes ==> IsPlanned(p, batch)
  {
    assert batch[..|batch|] == batch;
    HowManyChanges(batch, |batch|);
    SameMembers(changes, AllChanges(batch));
    hide AllChanges, StartOf, InOrder, Plans, IsPlanned;
    forall i: nat, k: nat | IsChange(batch, i, k) ensures HasPlan(changes, batch[i], batch[i].prepared[k]) {
      PlannedAt(batch, hash, i, k);
      var p :| p in AllChanges(batch) && Plans(p, batch[i], batch[i].prepared[k]);
      assert p in changes;
    }
    forall p | p in changes ensures IsPlanned(p, batch) {
      AllArePlanned(batch, hash, p);
    }
  }

  lemma SameMembers(a: seq<PlannedChange>, b: seq<PlannedChange>)
    requires multiset(a) == multiset(b)
    ensures |a| == |b| && forall p :: p in a <==> p in b
  {
    assert |multiset(a)| == |a| && |multiset(b)| == |b|;
    assert forall p :: p in a <==> p in multiset(a);
    assert forall p :: p in b <==> p in multiset(b);
  }
}
