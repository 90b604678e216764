/** Which proposals are rendered: `render_diffs` of src/advisor/diff.rs. */
module DiffBatch {
  import opened Wrappers
  import opened Slices
  import opened Order

  datatype Confidence = High | Medium | Low

  datatype Proposal = Proposal(
    target: Path, source: Option<Path>, action: string, problem: string, confidence: Confidence, body: string)

  datatype Reason = NotHighConfidence | Conflict | NoOp | Failed

  datatype Rendered = Rendered(proposal: Proposal, diff: string)

  datatype Skipped = Skipped(target: Path, reason: Reason)

  datatype Batch = Batch(rendered: seq<Rendered>, skipped: seq<Skipped>)

  /** The diff of a proposal against the current files; absent when it cannot be made. */
  type Renderer = Proposal -> Option<string>

  // ---- Order ----

  predicate ProposalLess(a: Proposal, b: Proposal)
  {
    if a.target != b.target then PathLess(a.target, b.target)
    else if a.action != b.action then StringLess(a.action, b.action)
    else StringLess(a.problem, b.problem)
  }

  lemma ProposalOrder()
    ensures StrictWeak(ProposalLess)
  {
    PathOrder();
    StringOrder();
    hide PathLess, StringLess;
    forall a, b, c | ProposalLess(a, c) ensures ProposalLess(a, b) || ProposalLess(b, c) {
      Trichotomy(PathLess, a.target, b.target);
      Trichotomy(StringLess, a.action, b.action);
      Trichotomy(StringLess, a.problem, b.problem);
    }
    forall a, b, c | ProposalLess(a, b) && ProposalLess(b, c) ensures ProposalLess(a, c) {
    }
  }

  // ---- Path counts over the high-confidence proposals ----

  /** How often one proposal names a path. */
  function Uses(p: Proposal, path: Path): nat
  {
    if p.confidence != High then 0
    else (if p.target == path then 1 else 0) + (if p.source == Some(path) then 1 else 0)
  }

  function Count(proposals: seq<Proposal>, path: Path): nat
  {
    if proposals == [] then 0
    else Count(proposals[..|proposals| - 1], path) + Uses(proposals[|proposals| - 1], path)
  }

  predicate InConflict(p: Proposal, proposals: seq<Proposal>)
  {
    Count(proposals, p.target) > 1 || (p.source.Some? && Count(proposals, p.source.value) > 1)
  }

  // ---- The fate of one proposal ----

  datatype Fate = Render(diff: string) | Skip(reason: Reason)

  function FateOf(p: Proposal, proposals: seq<Proposal>, render: Renderer): Fate
  {
    if p.confidence != High then Skip(NotHighConfidence)
    else if InConflict(p, proposals) then Skip(Conflict)
    else
      match render(p)
      case None => Skip(Failed)
      case Some(diff) => if diff == "" then Skip(NoOp) else Render(diff)
  }

  function Extended(b: Batch, p: Proposal, fate: Fate): Batch
  {
    match fate
    case Render(diff) => b.(rendered := b.rendered + [Rendered(p, diff)])
    case Skip(reason) => b.(skipped := b.skipped + [Skipped(p.target, reason)])
  }

  /** The batch after the first n of the ordered proposals. */
  function BatchOf(ordered: seq<Proposal>, n: nat, render: Renderer): Batch
    requires n <= |ordered|
  {
    if n == 0 then Batch([], [])
    else Extended(BatchOf(ordered, n - 1, render), ordered[n - 1], FateOf(ordered[n - 1], ordered, render))
  }

  function RenderedBatch(proposals: seq<Proposal>, render: Renderer): Batch
  {
    var ordered := Sort(ProposalLess, proposals);
    BatchOf(ordered, |ordered|, render)
  }

  /** The counted table as a function: absent paths count zero. */
  function CountIn(counts: map<Path, nat>, path: Path): nat
  {
    if path in counts then counts[path] else 0
  }

  method CountPaths(ordered: seq<Proposal>) returns (counts: map<Path, nat>)
    ensures forall path :: CountIn(counts, path) == Count(ordered, path)
  {
    counts := map[];
    for i := 0 to |ordered|
      invariant forall path :: CountIn(counts, path) == Count(ordered[..i], path)
    {
      var p := ordered[i];
      ghost var before := counts;
      assert ordered[..i + 1][..i] == ordered[..i];
      if p.confidence == High {
        counts := counts[p.target := CountIn(counts, p.target) + 1];
        if p.source.Some? {
          counts := counts[p.source.value := CountIn(counts, p.source.value) + 1];
        }
      }
      assert forall path :: CountIn(counts, path) == CountIn(before, path) + Uses(p, path);
    }
    assert ordered[..|ordered|] == ordered;
  }

  method RenderDiffs(proposals: seq<Proposal>, render: Renderer) returns (batch: Batch)
    ensures batch == RenderedBatch(proposals, render)
  {
    hide Sort, Count;
    var ordered := Sort(ProposalLess, proposals);
    var counts := CountPaths(ordered);
    batch := Batch([], []);
    for i := 0 to |ordered|
      invariant batch == BatchOf(ordered, i, render)
    {
      var p := ordered[i];
      if p.confidence != High {
        batch := batch.(skipped := batch.skipped + [Skipped(p.target, NotHighConfidence)]);
      } else {
        var conflict := CountIn(counts, p.target) > 1
                        || (p.source.Some? && CountIn(counts, p.source.value) > 1);
        if conflict {
          batch := batch.(skipped := batch.skipped + [Skipped(p.target, Conflict)]);
        } else {
          match render(p) {
            case None => batch := batch.(skipped := batch.skipped + [Skipped(p.target, Failed)]);
            case Some(diff) =>
              if diff == "" {
                batch := batch.(skipped := batch.skipped + [Skipped(p.target, NoOp)]);
              } else {
                batch := batch.(rendered := batch.rendered + [Rendered(p, diff)]);
              }
          }
        }
      }
    }
  }

  // ---- Exactly one of rendered and skipped ----

  function RenderedOf(ordered: seq<Proposal>, n: nat, render: Renderer): seq<Proposal>
    requires n <= |ordered|
  {
    if n == 0 then []
    else
      RenderedOf(ordered, n - 1, render)
      + if FateOf(ordered[n - 1], ordered, render).Render? then [ordered[n - 1]] else []
  }

  function SkippedOf(ordered: seq<Proposal>, n: nat, render: Renderer): seq<Proposal>
    requires n <= |ordered|
  {
    if n == 0 then []
    else
      SkippedOf(ordered, n - 1, render)
      + if FateOf(ordered[n - 1], ordered, render).Skip? then [ordered[n - 1]] else []
  }

  /** The two lists: each rendered proposal with its diff, each skipped one with its target and the reason for it. */
  lemma {:induction false} EachProposalOnce(ordered: seq<Proposal>, n: nat, render: Renderer)
    requires n <= |ordered|
    ensures var (b, rendered, skipped) :=
        (BatchOf(ordered, n, render), RenderedOf(ordered, n, render), SkippedOf(ordered, n, render));
            && |b.rendered| == |rendered| && |b.skipped| == |skipped|
            && (forall i :: 0 <= i < |rendered| ==>
                  && b.rendered[i].proposal == rendered[i]
                  && FateOf(rendered[i], ordered, render) == Render(b.rendered[i].diff))
            && (forall i :: 0 <= i < |skipped| ==>
                  && b.skipped[i].target == skipped[i].target
                  && FateOf(skipped[i], ordered, render) == Skip(b.skipped[i].reason))
  {
    hide FateOf;
    if n > 0 {
      EachProposalOnce(ordered, n - 1, render);
    }
  }

  /** One more element on one of two lists that together make up a third. */
  lemma OneMoreOfTwo<T>(a: seq<T>, b: seq<T>, all: seq<T>, x: T)
    requires multiset(a) + multiset(b) == multiset(all)
    ensures multiset(a + [x]) + multiset(b) == multiset(all + [x])
        && multiset(a) + multiset(b + [x]) == multiset(all + [x])
  {
    assert multiset(all + [x]) == multiset(all) + multiset{x};
  }

  lemma PartsNext(ordered: seq<Proposal>, n: nat, render: Renderer)
    requires 0 < n <= |ordered|
    ensures var (x, isRendered) := (ordered[n - 1], FateOf(ordered[n - 1], ordered, render).Render?);
            var (rendered, skipped) := (RenderedOf(ordered, n - 1, render), SkippedOf(ordered, n - 1, render));
            && RenderedOf(ordered, n, render) == (if isRendered then rendered + [x] else rendered)
            && SkippedOf(ordered, n, render) == (if isRendered then skipped else skipped + [x])
            && ordered[..n] == ordered[..n - 1] + [x]
  {
    hide FateOf;
  }

  lemma NoParts(ordered: seq<Proposal>, render: Renderer)
    ensures RenderedOf(ordered, 0, render) == [] && SkippedOf(ordered, 0, render) == [] && ordered[..0] == []
  {
  }

  /** The rendered and the skipped proposals together are the first n. */
  lemma {:induction false} TwoParts(ordered: seq<Proposal>, n: nat, render: Renderer)
    requires n <= |ordered|
    ensures multiset(RenderedOf(ordered, n, render)) + multiset(SkippedOf(ordered, n, render)) == multiset(ordered[..n])
  {
    hide FateOf, RenderedOf, SkippedOf;
    if n == 0 {
      NoParts(ordered, render);
    } else {
      TwoParts(ordered, n - 1, render);
      PartsNext(ordered, n, render);
      OneMoreOfTwo(RenderedOf(ordered, n - 1, render), SkippedOf(ordered, n - 1, render), ordered[..n - 1],
          ordered[n - 1]);
    }
  }

  /**
   * Of the proposals given, in whatever order, each is rendered or skipped, as often as it was given and never both.
   */
  lemma RenderedOrSkipped(proposals: seq<Proposal>, render: Renderer)
    ensures var ordered := Sort(ProposalLess, proposals);
            var (b, n) := (RenderedBatch(proposals, render), |ordered|);
            && multiset(RenderedOf(ordered, n, render)) + multiset(SkippedOf(ordered, n, render)) == multiset(proposals)
            && |b.rendered| + |b.skipped| == |proposals|
            && forall p :: !(p in RenderedOf(ordered, n, render) && p in SkippedOf(ordered, n, render))
  {
    hide Sort, BatchOf, RenderedOf, SkippedOf, FateOf;
    var ordered := Sort(ProposalLess, proposals);
    ProposalOrder();
    SortIs(ProposalLess, proposals);
    EachProposalOnce(ordered, |ordered|, render);
    TwoParts(ordered, |ordered|, render);
    TakeAll(ordered, |ordered|);
    var rendered, skipped := RenderedOf(ordered, |ordered|, render), SkippedOf(ordered, |ordered|, render);
    assert |rendered| + |skipped| == |multiset(rendered) + multiset(skipped)| == |multiset(proposals)| == |proposals|;
    forall p ensures !(p in rendered && p in skipped) {
      RenderedIff(ordered, |ordered|, render, p);
      SkippedIff(ordered, |ordered|, render, p);
    }
  }

  lemma {:induction false} SkippedIff(ordered: seq<Proposal>, n: nat, render: Renderer, p: Proposal)
    requires n <= |ordered|
    ensures p in SkippedOf(ordered, n, render) <==> p in ordered[..n] && FateOf(p, ordered, render).Skip?
  {
    hide FateOf;
    if n > 0 {
      SkippedIff(ordered, n - 1, render, p);
      assert ordered[..n] == ordered[..n - 1] + [ordered[n - 1]];
    }
  }

  /** Where each rendered proposal stands in the ordered list, in increasing order. */
  lemma {:induction false} RenderedPositions(ordered: seq<Proposal>, n: nat, render: Renderer) returns (at: seq<nat>)
    requires n <= |ordered|
    ensures |at| == |RenderedOf(ordered, n, render)|
    ensures forall i :: 0 <= i < |at| ==>
              at[i] < n && ordered[at[i]] == RenderedOf(ordered, n, render)[i]
              && FateOf(ordered[at[i]], ordered, render).Render?
    ensures forall i, j :: 0 <= i < j < |at| ==> at[i] < at[j]
  {
    hide FateOf;
    at := [];
    if n > 0 {
      at := RenderedPositions(ordered, n - 1, render);
      if FateOf(ordered[n - 1], ordered, render).Render? {
        at := at + [n - 1];
      }
    }
  }

  // ---- Disjointness ----

  predicate Touches(p: Proposal, path: Path)
  {
    p.target == path || p.source == Some(path)
  }

  lemma {:induction false} CountAtLeast(s: seq<Proposal>, i: nat, path: Path)
    requires i < |s|
    ensures Count(s, path) >= Uses(s[i], path)
  {
    if i < |s| - 1 {
      CountAtLeast(s[..|s| - 1], i, path);
    }
  }

  lemma {:induction false} CountBoth(s: seq<Proposal>, i: nat, j: nat, path: Path)
    requires i < j < |s|
    ensures Count(s, path) >= Uses(s[i], path) + Uses(s[j], path)
  {
    if j < |s| - 1 {
      CountBoth(s[..|s| - 1], i, j, path);
    } else {
      CountAtLeast(s[..|s| - 1], i, path);
    }
  }

  /** No rendered proposal is target and source of one path, and no later one shares a path with it. */
  lemma RenderedAreDisjoint(proposals: seq<Proposal>, render: Renderer, i: nat)
    requires i < |RenderedBatch(proposals, render).rendered|
    ensures var rendered := RenderedBatch(proposals, render).rendered;
            && rendered[i].proposal.source != Some(rendered[i].proposal.target)
            && forall j, path :: i < j < |rendered| ==>
                 !(Touches(rendered[i].proposal, path) && Touches(rendered[j].proposal, path))
  {
    hide Sort, Count, BatchOf, RenderedOf, SkippedOf;
    var ordered := Sort(ProposalLess, proposals);
    var rendered := RenderedBatch(proposals, render).rendered;
    EachProposalOnce(ordered, |ordered|, render);
    var at := RenderedPositions(ordered, |ordered|, render);
    CountAtLeast(ordered, at[i], ordered[at[i]].target);
    forall j, path | i < j < |rendered|
      ensures !(Touches(rendered[i].proposal, path) && Touches(rendered[j].proposal, path))
    {
      CountBoth(ordered, at[i], at[j], path);
    }
  }

  // ---- The input order does not matter ----

  lemma {:induction false} CountWithout(s: seq<Proposal>, i: nat, path: Path)
    requires i < |s|
    ensures Count(s, path) == Count(s[..i] + s[i + 1..], path) + Uses(s[i], path)
  {
    var n := |s| - 1;
    if i == n {
      assert s[..i] + s[i + 1..] == s[..n];
    } else {
      CountWithout(s[..n], i, path);
      assert (s[..i] + s[i + 1..])[..n - 1] == s[..n][..i] + s[..n][i + 1..];
    }
  }

  lemma SumCancels<T>(a: multiset<T>, b: multiset<T>, c: multiset<T>)
    requires a + c == b + c
    ensures a == b
  {
    assert (a + c) - c == a && (b + c) - c == b;
  }

  lemma WithoutOne(a: seq<Proposal>, b: seq<Proposal>, i: nat)
    requires a != [] && i < |b| && b[i] == a[|a| - 1] && multiset(a) == multiset(b)
    ensures multiset(a[..|a| - 1]) == multiset(b[..i] + b[i + 1..])
  {
    Snoc(a);
    SplitAt(b, i, b[i]);
    assert multiset(a) == multiset(a[..|a| - 1]) + multiset{b[i]};
    assert multiset(b) == multiset(b[..i]) + multiset{b[i]} + multiset(b[i + 1..]);
    var rest := b[..i] + b[i + 1..];
    assert multiset(rest) == multiset(b[..i]) + multiset(b[i + 1..]);
    assert multiset(rest) + multiset{b[i]} == multiset(a[..|a| - 1]) + multiset{b[i]};
    SumCancels(multiset(rest), multiset(a[..|a| - 1]), multiset{b[i]});
  }

  /** Counts depend only on which proposals there are. */
  lemma {:induction false} CountOfPermutation(a: seq<Proposal>, b: seq<Proposal>, path: Path)
    requires multiset(a) == multiset(b)
    ensures Count(a, path) == Count(b, path)
  {
    if a == [] {
      assert |multiset(b)| == 0;
    } else {
      var last := a[|a| - 1];
      assert last in multiset(b);
      var i :| 0 <= i < |b| && b[i] == last;
      var rest := b[..i] + b[i + 1..];
      WithoutOne(a, b, i);
      CountOfPermutation(a[..|a| - 1], rest, path);
      CountWithout(b, i, path);
    }
  }

  /** Rendered exactly when it is in the list with high confidence, shares no path, and has a non-empty diff. */
  lemma {:induction false} RenderedIff(ordered: seq<Proposal>, n: nat, render: Renderer, p: Proposal)
    requires n <= |ordered|
    ensures p in RenderedOf(ordered, n, render) <==> p in ordered[..n] && FateOf(p, ordered, render).Render?
  {
    hide FateOf;
    if n > 0 {
      RenderedIff(ordered, n - 1, render, p);
      assert ordered[..n] == ordered[..n - 1] + [ordered[n - 1]];
    }
  }

  lemma RenderedSorted(ordered: seq<Proposal>, render: Renderer)
    requires SortedBy(ProposalLess, ordered)
    ensures StrictlySorted(ByTarget, RenderedOf(ordered, |ordered|, render))
  {
    hide Count, RenderedOf, PathLess, StringLess;
    PathOrder();
    var at := RenderedPositions(ordered, |ordered|, render);
    var r := RenderedOf(ordered, |ordered|, render);
    forall i, j | 0 <= i < j < |r| ensures ByTarget(r[i], r[j]) {
      CountBoth(ordered, at[i], at[j], r[i].target);
      Trichotomy(PathLess, r[i].target, r[j].target);
      assert !ProposalLess(ordered[at[j]], ordered[at[i]]);
    }
  }

  predicate ByTarget(a: Proposal, b: Proposal) { PathLess(a.target, b.target) }

  /** Sorted by distinct targets, two lists of the same proposals are equal. */
  lemma {:induction false} SameSortedList(a: seq<Proposal>, b: seq<Proposal>)
    requires StrictlySorted(ByTarget, a) && StrictlySorted(ByTarget, b)
    requires forall p :: p in a <==> p in b
    ensures a == b
  {
    PathOrder();
    hide PathLess;
    assert b != [] ==> b[0] in b;
    if a != [] {
      assert a[0] in b && b[0] in a;
      var i :| 0 <= i < |b| && b[i] == a[0];
      var j :| 0 <= j < |a| && a[j] == b[0];
      assert a[0] == b[0];
      TailMembers(a);
      TailMembers(b);
      SameSortedList(a[1..], b[1..]);
      assert a == [a[0]] + a[1..] && b == [b[0]] + b[1..];
    }
  }

  lemma TailMembers(a: seq<Proposal>)
    requires a != [] && StrictlySorted(ByTarget, a) && StrictTotal(PathLess)
    ensures forall p :: p in a[1..] <==> p in a && p != a[0]
  {
    hide PathLess;
    assert a == [a[0]] + a[1..];
    forall k | 0 <= k < |a[1..]| ensures a[1..][k] != a[0] {
      assert ByTarget(a[0], a[k + 1]);
    }
  }

  lemma DiffsFollow(a: seq<Rendered>, b: seq<Rendered>, render: Renderer)
    requires |a| == |b|
    requires forall i :: 0 <= i < |a| ==> a[i].proposal == b[i].proposal
    requires forall i :: 0 <= i < |a| ==>
        render(a[i].proposal) == Some(a[i].diff) && render(b[i].proposal) == Some(b[i].diff)
    ensures a == b
  {
    forall i | 0 <= i < |a| ensures a[i] == b[i] {
      assert a[i].diff == b[i].diff;
    }
  }

  /** For fixed file contents, the rendered list depends only on which proposals are given. */
  lemma RenderingIgnoresInputOrder(a: seq<Proposal>, b: seq<Proposal>, render: Renderer)
    requires multiset(a) == multiset(b)
    ensures RenderedBatch(a, render).rendered == RenderedBatch(b, render).rendered
  {
    hide Sort, Count, BatchOf, RenderedOf, ProposalLess;
    ProposalOrder();
    SortIs(ProposalLess, a);
    SortIs(ProposalLess, b);
    var s, t := Sort(ProposalLess, a), Sort(ProposalLess, b);
    forall path ensures Count(s, path) == Count(t, path) {
      CountOfPermutation(s, t, path);
    }
    forall p ensures p in RenderedOf(s, |s|, render) <==> p in RenderedOf(t, |t|, render) {
      RenderedIff(s, |s|, render, p);
      RenderedIff(t, |t|, render, p);
      TakeAll(s, |s|);
      TakeAll(t, |t|);
      assert p in s <==> p in multiset(s);
      assert p in t <==> p in multiset(t);
    }
    RenderedSorted(s, render);
    RenderedSorted(t, render);
    SameSortedList(RenderedOf(s, |s|, render), RenderedOf(t, |t|, render));
    EachProposalOnce(s, |s|, render);
    EachProposalOnce(t, |t|, render);
    DiffsFollow(BatchOf(s, |s|, render).rendered, BatchOf(t, |t|, render).rendered, render);
  }
}
