/** Why a proposal is rendered or skipped, and the order of the result, src/advisor/diff.rs. */
module DiffFates {
  import opened Wrappers
  import opened Slices
  import opened Order
  import opened DiffBatch

  /** Of two proposals, or of one with itself: a path that one reads or writes is written or read by the other. */
  predicate ShareAPath(p: Proposal, q: Proposal)
  {
    || p.target == q.target || p.source == Some(q.target) || q.source == Some(p.target)
    || (p.source.Some? && p.source == q.source)
  }

  /** Another proposal of high confidence uses one of its paths, or it uses one path twice itself. */
  ghost predicate Collides(proposals: seq<Proposal>, i: nat)
    requires i < |proposals|
  {
    || proposals[i].source == Some(proposals[i].target)
    || exists j: nat :: j < |proposals| && j != i && proposals[j].confidence == High
                        && ShareAPath(proposals[i], proposals[j])
  }

  lemma {:induction false} CountIsUses(s: seq<Proposal>, path: Path)
    ensures Count(s, path) == 0 <==> forall k :: 0 <= k < |s| ==> Uses(s[k], path) == 0
  {
    if s != [] {
      CountIsUses(s[..|s| - 1], path);
    }
  }

  /** A path is counted more than once when this proposal uses it twice, or when another uses it too. */
  lemma CountedMoreIff(s: seq<Proposal>, i: nat, path: Path)
    requires i < |s| && Uses(s[i], path) >= 1
    ensures Count(s, path) > 1 <==>
            Uses(s[i], path) > 1 || exists j: nat :: j < |s| && j != i && Uses(s[j], path) > 0
  {
    hide Uses, Count;
    CountWithout(s, i, path);
    var rest := s[..i] + s[i + 1..];
    CountIsUses(rest, path);
    assert forall k :: 0 <= k < |rest| ==> rest[k] == s[if k < i then k else k + 1];
    forall j: nat | j < |s| && j != i ensures Uses(s[j], path) == Uses(rest[if j < i then j else j - 1], path) {
    }
  }

  lemma UsesAre(p: Proposal, path: Path)
    ensures p.confidence == High ==> (Uses(p, path) > 0 <==> p.target == path || p.source == Some(path))
    ensures p.confidence == High ==> (Uses(p, path) > 1 <==> p.target == path && p.source == Some(path))
    ensures p.confidence != High ==> Uses(p, path) == 0
  {
  }

  lemma CollidesIff(proposals: seq<Proposal>, i: nat)
    requires i < |proposals| && proposals[i].confidence == High
    ensures InConflict(proposals[i], proposals) <==> Collides(proposals, i)
  {
    var p := proposals[i];
    forall q: Proposal, path: Path ensures Uses(q, path) > 0 <==>
                                           q.confidence == High && (q.target == path || q.source == Some(path)) {
      UsesAre(q, path);
    }
    forall path: Path ensures Uses(p, path) > 1 <==> p.target == path && p.source == Some(path) {
      UsesAre(p, path);
    }
    hide Uses, Count;
    CountedMoreIff(proposals, i, p.target);
    if p.source.Some? {
      CountedMoreIff(proposals, i, p.source.value);
    }
  }

  /** The first of these that applies: low confidence, a collision, no diff, an empty diff; otherwise the diff. */
  ghost predicate IsFate(fate: Fate, proposals: seq<Proposal>, i: nat, render: Renderer)
    requires i < |proposals|
  {
    match fate
    case Skip(NotHighConfidence) => proposals[i].confidence != High
    case Skip(Conflict) => proposals[i].confidence == High && Collides(proposals, i)
    case Skip(Failed) => proposals[i].confidence == High && !Collides(proposals, i) && render(proposals[i]) == None
    case Skip(NoOp) => proposals[i].confidence == High && !Collides(proposals, i) && render(proposals[i]) == Some("")
    case Render(diff) =>
      proposals[i].confidence == High && !Collides(proposals, i) && render(proposals[i]) == Some(diff) && diff != ""
  }

  lemma FateIs(proposals: seq<Proposal>, i: nat, render: Renderer)
    requires i < |proposals|
    ensures IsFate(FateOf(proposals[i], proposals, render), proposals, i, render)
  {
    if proposals[i].confidence == High {
      CollidesIff(proposals, i);
    }
    hide Collides, InConflict;
  }

  /** Its fate among the sorted proposals is its fate among those given. */
  lemma FateOfPermutation(a: seq<Proposal>, b: seq<Proposal>, p: Proposal, render: Renderer)
    requires multiset(a) == multiset(b)
    ensures FateOf(p, a, render) == FateOf(p, b, render)
  {
    CountOfPermutation(a, b, p.target);
    if p.source.Some? {
      CountOfPermutation(a, b, p.source.value);
    }
    hide Count;
  }

  /**
   * Of the proposals given, those of high confidence that collide with no other and have a diff are rendered with it,
   * and every other one is skipped for the first reason there is.
   */
  lemma BatchIs(proposals: seq<Proposal>, render: Renderer, i: nat)
    requires i < |proposals|
    ensures var b, p := RenderedBatch(proposals, render), proposals[i];
            exists fate :: IsFate(fate, proposals, i, render)
              && match fate
                 case Render(diff) => Rendered(p, diff) in b.rendered
                 case Skip(reason) => Skipped(p.target, reason) in b.skipped
  {
    hide Sort, BatchOf, RenderedOf, SkippedOf, Collides, InConflict;
    var ordered, p := Sort(ProposalLess, proposals), proposals[i];
    ProposalOrder();
    SortIs(ProposalLess, proposals);
    FateIs(proposals, i, render);
    FateOfPermutation(proposals, ordered, p, render);
    hide FateOf, IsFate;
    var fate := FateOf(p, proposals, render);
    InSorted(ordered, proposals, i);
    EachProposalOnce(ordered, |ordered|, render);
    RenderedIff(ordered, |ordered|, render, p);
    SkippedIff(ordered, |ordered|, render, p);
    assert ordered[..|ordered|] == ordered;
    var b := RenderedBatch(proposals, render);
    if fate.Render? {
      var k :| 0 <= k < |b.rendered| && RenderedOf(ordered, |ordered|, render)[k] == p;
      assert b.rendered[k] == Rendered(p, fate.diff);
    } else {
      var k :| 0 <= k < |b.skipped| && SkippedOf(ordered, |ordered|, render)[k] == p;
      assert b.skipped[k] == Skipped(p.target, fate.reason);
    }
  }

  lemma InSorted(ordered: seq<Proposal>, proposals: seq<Proposal>, i: nat)
    requires i < |proposals| && multiset(ordered) == multiset(proposals)
    ensures proposals[i] in ordered
  {
    assert proposals[i] in multiset(proposals);
    assert proposals[i] in multiset(ordered);
  }

  /** The rendered diffs stand in the order of their targets. */
  lemma RenderedInOrder(proposals: seq<Proposal>, render: Renderer)
    ensures var rendered := RenderedBatch(proposals, render).rendered;
            forall i, j :: 0 <= i < j < |rendered| ==>
              PathLess(rendered[i].proposal.target, rendered[j].proposal.target)
  {
    hide Sort, BatchOf, RenderedOf, PathLess;
    var ordered := Sort(ProposalLess, proposals);
    ProposalOrder();
    SortIs(ProposalLess, proposals);
    RenderedSorted(ordered, render);
    EachProposalOnce(ordered, |ordered|, render);
    hide ProposalLess, FateOf;
    var r := RenderedOf(ordered, |ordered|, render);
    assert forall i, j :: 0 <= i < j < |r| ==> ByTarget(r[i], r[j]);
  }

  /** Ties between proposals: the same target, action and problem. */
  lemma TiedIff(a: Proposal, b: Proposal)
    ensures !ProposalLess(a, b) && !ProposalLess(b, a) <==>
            a.target == b.target && a.action == b.action && a.problem == b.problem
    ensures PathLess(a.target, b.target) ==> ProposalLess(a, b)
    ensures a.target == b.target && StringLess(a.action, b.action) ==> ProposalLess(a, b)
    ensures a.target == b.target && a.action == b.action && StringLess(a.problem, b.problem) ==> ProposalLess(a, b)
  {
    PathOrder();
    StringOrder();
    hide PathLess, StringLess;
    Trichotomy(PathLess, a.target, b.target);
    Trichotomy(StringLess, a.action, b.action);
    Trichotomy(StringLess, a.problem, b.problem);
  }
}
