/** Marking of duplicate tool results, src/normalize.rs. */
module Duplicates {
  import opened Wrappers
  import opened Correlation

  /** What the text of a deduplication key is made from; the rendering itself is a parameter of this model. */
  datatype KeyParts = KeyParts(
    session: string, turn: string, call: string, exitCode: Option<int>, status: string, output: string)

  function OrEmpty(text: Option<string>): string
  {
    if text.Some? then text.value else ""
  }

  function CombinedOutput(r: ToolResult): string
  {
    var out, err := OrEmpty(r.stdout), OrEmpty(r.stderr);
    if out == "" then err else if err == "" then out else out + "\n" + err
  }

  function ResultKey(key: KeyParts -> string, r: ToolResult): string
  {
    key(KeyParts(OrEmpty(r.sessionId), OrEmpty(r.turnId), OrEmpty(r.callId), r.exitCode, OrEmpty(r.status),
        CombinedOutput(r)))
  }

  function Quality(r: ToolResult): (q: nat)
    ensures q <= 3
  {
    if r.exitCode.Some? then 3 else if r.status.Some? then 2 else if CombinedOutput(r) != "" then 1 else 0
  }

  predicate Equivalent(left: ToolResult, right: ToolResult)
  {
    && left.callId.Some? && right.callId.Some? && left.callId == right.callId
    && SameContext(left.sessionId, right.sessionId) && SameContext(left.turnId, right.turnId)
    && if left.outcome == Unknown && right.outcome == Unknown then
         && left.command == right.command && left.cwd == right.cwd
         && left.stdout == right.stdout && left.stderr == right.stderr
         && left.durationMs == right.durationMs && left.exitCode == right.exitCode
         && left.status == right.status && left.outcomeSource == right.outcomeSource
       else if left.outcome != Unknown && right.outcome != Unknown && left.outcome != right.outcome then
         || left.exitCode.Some? != right.exitCode.Some?
         || left.outcomeSource == FromOutputText || right.outcomeSource == FromOutputText
       else true
  }

  /** Three reports of one call: the first and the last contradict each other, the middle one agrees with both. */
  lemma EquivalenceIsNotTransitive()
    ensures exists a, b, c :: Equivalent(a, b) && Equivalent(b, c) && !Equivalent(a, c)
  {
    var a := ToolResult(Some("c"), None, None, None, None, None, None, None, None, Some("ok"), Succeeded, FromStatus,
                        None, None, false, Provenance("log", 1));
    var b := a.(outcome := Unknown, status := None, outcomeSource := FromNowhere);
    var c := a.(outcome := Failed, status := Some("failed"));
    assert Equivalent(a, b) && Equivalent(b, c) && !Equivalent(a, c);
  }

  // ---- One pass over the results ----

  datatype Marking = Marking(results: seq<ToolResult>, representatives: seq<nat>)

  predicate IsUnmarked(r: ToolResult)
  {
    r.deduplicationKey.None? && r.equivalentTo.None? && !r.isDuplicate
  }

  function DuplicateOf(r: ToolResult, key: string, target: Provenance): ToolResult
  {
    r.(deduplicationKey := Some(key), equivalentTo := Some(target), isDuplicate := true)
  }

  /** The key a result already carries, or else the one made from it. */
  function KeyOf(key: KeyParts -> string, r: ToolResult): string
  {
    if r.deduplicationKey.Some? then r.deduplicationKey.value else ResultKey(key, r)
  }

  function FirstEquivalent(candidates: seq<ToolResult>, r: ToolResult): (found: Option<nat>)
    ensures match found
            case Some(i) =>
              i < |candidates| && Equivalent(candidates[i], r)
              && forall k :: 0 <= k < i ==> !Equivalent(candidates[k], r)
            case None => forall k :: 0 <= k < |candidates| ==> !Equivalent(candidates[k], r)
  {
    if candidates == [] then None
    else if Equivalent(candidates[0], r) then Some(0)
    else
      match FirstEquivalent(candidates[1..], r)
      case Some(i) => Some(i + 1)
      case None => None
  }

  predicate InRange(representatives: seq<nat>, n: nat)
  {
    forall j :: 0 <= j < |representatives| ==> representatives[j] < n
  }

  function Pick(results: seq<ToolResult>, at: seq<nat>): (picked: seq<ToolResult>)
    requires InRange(at, |results|)
    ensures |picked| == |at| && forall j :: 0 <= j < |at| ==> picked[j] == results[at[j]]
  {
    seq(|at|, j requires 0 <= j < |at| => results[at[j]])
  }

  function MarkOne(prior: seq<ToolResult>, m: Marking, index: nat, key: KeyParts -> string): (next: Marking)
    requires index < |m.results| && InRange(m.representatives, index)
    ensures |next.results| == |m.results| && InRange(next.representatives, index + 1)
  {
    var r := m.results[index];
    match FirstEquivalent(prior, r)
    case Some(p) =>
      m.(results := m.results[index := DuplicateOf(r, KeyOf(key, prior[p]), prior[p].provenance)])
    case None =>
      match FirstEquivalent(Pick(m.results, m.representatives), r)
      case None =>
        Marking(if r.callId.Some? then m.results[index := r.(deduplicationKey := Some(ResultKey(key, r)))]
            else m.results,
                m.representatives + [index])
      case Some(j) =>
        var previous := m.representatives[j];
        if Quality(r) > Quality(m.results[previous]) then
          Marking(m.results[previous := DuplicateOf(m.results[previous], ResultKey(key, r), r.provenance)]
                           [index := r.(deduplicationKey := Some(ResultKey(key, r)))],
                  m.representatives[j := index])
        else if r.callId.Some? then
          m.(results := m.results[index := DuplicateOf(r, KeyOf(key, m.results[previous]),
              m.results[previous].provenance)])
        else m
  }

  function MarkFirst(prior: seq<ToolResult>, rs: seq<ToolResult>, n: nat, key: KeyParts -> string): (m: Marking)
    requires n <= |rs|
    ensures |m.results| == |rs| && InRange(m.representatives, n)
  {
    if n == 0 then Marking(rs, []) else MarkOne(prior, MarkFirst(prior, rs, n - 1, key), n - 1, key)
  }

  function MarkAll(prior: seq<ToolResult>, rs: seq<ToolResult>, key: KeyParts -> string): Marking
  {
    MarkFirst(prior, rs, |rs|, key)
  }

  // ---- The same pass in place ----

  method FindEquivalent(candidates: seq<ToolResult>, r: ToolResult) returns (found: Option<nat>)
    ensures found == FirstEquivalent(candidates, r)
  {
    hide Equivalent;
    for i := 0 to |candidates|
      invariant forall k :: 0 <= k < i ==> !Equivalent(candidates[k], r)
    {
      if Equivalent(candidates[i], r) {
        return Some(i);
      }
    }
    return None;
  }

  method FindRepresentative(results: array<ToolResult>, representatives: seq<nat>, r: ToolResult)
    returns (found: Option<nat>)
    requires InRange(representatives, results.Length)
    ensures found == FirstEquivalent(Pick(results[..], representatives), r)
  {
    hide Equivalent;
    ghost var picked := Pick(results[..], representatives);
    for j := 0 to |representatives|
      invariant forall k :: 0 <= k < j ==> !Equivalent(picked[k], r)
    {
      if Equivalent(results[representatives[j]], r) {
        assert picked[j] == results[representatives[j]];
        return Some(j);
      }
    }
    return None;
  }

  method MarkDuplicateToolResults(prior: seq<ToolResult>, results: array<ToolResult>, key: KeyParts -> string)
    modifies results
    ensures results[..] == MarkAll(prior, old(results[..]), key).results
  {
    hide Equivalent, Quality, ResultKey, FirstEquivalent, DuplicateOf, KeyOf;
    ghost var rs := results[..];
    var representatives: seq<nat> := [];
    for index := 0 to results.Length
      invariant InRange(representatives, index)
      invariant Marking(results[..], representatives) == MarkFirst(prior, rs, index, key)
    {
      ghost var m := Marking(results[..], representatives);
      var r := results[index];
      var known := FindEquivalent(prior, r);
      if known.Some? {
        var previous := prior[known.value];
        results[index] := DuplicateOf(r, KeyOf(key, previous), previous.provenance);
        assert results[..] == MarkOne(prior, m, index, key).results;
        continue;
      }
      var found := FindRepresentative(results, representatives, r);
      if found.None? {
        if r.callId.Some? {
          results[index] := r.(deduplicationKey := Some(ResultKey(key, r)));
        }
        representatives := representatives + [index];
        assert results[..] == MarkOne(prior, m, index, key).results;
        continue;
      }
      var previous := representatives[found.value];
      if Quality(r) > Quality(results[previous]) {
        results[previous] := DuplicateOf(results[previous], ResultKey(key, r), r.provenance);
        results[index] := r.(deduplicationKey := Some(ResultKey(key, r)));
        representatives := representatives[found.value := index];
      } else if r.callId.Some? {
        results[index] := DuplicateOf(r, KeyOf(key, results[previous]), results[previous].provenance);
      }
      assert results[..] == MarkOne(prior, m, index, key).results;
    }
  }

  // ---- Where the marks lead ----

  /**
   * How one result ended up: kept, repeated from an earlier batch, beaten by a better one, or repeating an earlier one.
   */
  datatype Link = Kept | FromPrior(p: nat) | Beaten(target: nat) | Repeating(target: nat)

  function Shown(prior: seq<ToolResult>, rs: seq<ToolResult>, i: nat, link: Link, key: KeyParts -> string): ToolResult
    requires i < |rs|
    requires link.FromPrior? ==> link.p < |prior|
    requires link.Beaten? || link.Repeating? ==> link.target < |rs|
  {
    match link
    case Kept => if rs[i].callId.Some? then rs[i].(deduplicationKey := Some(ResultKey(key, rs[i]))) else rs[i]
    case FromPrior(p) => DuplicateOf(rs[i], KeyOf(key, prior[p]), prior[p].provenance)
    case Beaten(t) => DuplicateOf(rs[i], ResultKey(key, rs[t]), rs[t].provenance)
    case Repeating(t) => DuplicateOf(rs[i], ResultKey(key, rs[t]), rs[t].provenance)
  }

  /**
   * A beaten result was kept until a strictly better one came; a repeating one points at what was kept when it came.
   */
  ghost predicate LinkHolds(prior: seq<ToolResult>, rs: seq<ToolResult>, links: seq<Link>, i: nat)
    requires i < |links| <= |rs|
  {
    && (if links[i].FromPrior? then FirstEquivalent(prior, rs[i]) == Some(links[i].p)
        else FirstEquivalent(prior, rs[i]).None?)
    && match links[i]
    case Kept => true
    case FromPrior(p) => p < |prior| && Equivalent(prior[p], rs[i])
    case Beaten(t) =>
      && i < t < |links| && Equivalent(rs[t], rs[i]) && Quality(rs[i]) < Quality(rs[t])
      && (links[t].Kept? || links[t].Beaten?)
    case Repeating(t) =>
      && t < i && Equivalent(rs[t], rs[i]) && Quality(rs[i]) <= Quality(rs[t])
      && (links[t].Kept? || links[t].Beaten?)
  }

  ghost predicate Explains(prior: seq<ToolResult>, rs: seq<ToolResult>, m: Marking, links: seq<Link>,
                           key: KeyParts -> string)
  {
    && |links| <= |rs| && |m.results| == |rs| && InRange(m.representatives, |links|)
    && (forall i :: 0 <= i < |links| ==>
        LinkHolds(prior, rs, links, i) && m.results[i] == Shown(prior, rs, i, links[i], key))
    && (forall i :: |links| <= i < |rs| ==> m.results[i] == rs[i])
    && (forall j :: 0 <= j < |m.representatives| ==> links[m.representatives[j]].Kept?)
    && (forall i :: 0 <= i < |links| && links[i].Kept? ==> i in m.representatives)
    && (forall j, k :: 0 <= j < k < |m.representatives| ==> m.representatives[j] != m.representatives[k])
  }

  /** Equivalence, quality and keys never look at the marks. */
  lemma MarksDoNotMatter(r: ToolResult, s: ToolResult, key: KeyParts -> string)
    requires s == r.(deduplicationKey := s.deduplicationKey, equivalentTo := s.equivalentTo,
        isDuplicate := s.isDuplicate)
    ensures Quality(s) == Quality(r) && ResultKey(key, s) == ResultKey(key, r) && s.provenance == r.provenance
    ensures forall other :: Equivalent(s, other) == Equivalent(r, other)
  {
  }

  lemma EquivalentIsSymmetric(left: ToolResult, right: ToolResult)
    ensures Equivalent(left, right) == Equivalent(right, left)
  {
  }

  function Linked(prior: seq<ToolResult>, m: Marking, links: seq<Link>, key: KeyParts -> string): seq<Link>
    requires |links| < |m.results| && InRange(m.representatives, |links|)
  {
    var r := m.results[|links|];
    match FirstEquivalent(prior, r)
    case Some(p) => links + [FromPrior(p)]
    case None =>
      match FirstEquivalent(Pick(m.results, m.representatives), r)
      case None => links + [Kept]
      case Some(j) =>
        var previous := m.representatives[j];
        if Quality(r) > Quality(m.results[previous]) then links[previous := Beaten(|links|)] + [Kept]
        else links + [Repeating(previous)]
  }

  lemma LinkedExplains(prior: seq<ToolResult>, rs: seq<ToolResult>, m: Marking, links: seq<Link>,
                       key: KeyParts -> string)
    requires Explains(prior, rs, m, links, key) && |links| < |rs|
    ensures Explains(prior, rs, MarkOne(prior, m, |links|, key), Linked(prior, m, links, key), key)
  {
    hide Equivalent, Quality, ResultKey;
    var n := |links|;
    var r := m.results[n];
    var known := FirstEquivalent(prior, r);
    if known.None? {
      var found := FirstEquivalent(Pick(m.results, m.representatives), r);
      if found.Some? {
        var previous := m.representatives[found.value];
        MarksDoNotMatter(rs[previous], m.results[previous], key);
        EquivalentIsSymmetric(rs[previous], r);
        assert r.callId.Some? && rs[previous].callId.Some? by { NeedsIds(rs[previous], r); }
        if Quality(r) > Quality(rs[previous]) {
          BeatenExplains(prior, rs, m, links, found.value, key);
        } else {
          AddedExplains(prior, rs, m, links, Repeating(previous), MarkOne(prior, m, n, key), key);
        }
      } else {
        AddedExplains(prior, rs, m, links, Kept, MarkOne(prior, m, n, key), key);
      }
    } else {
      AddedExplains(prior, rs, m, links, FromPrior(known.value), MarkOne(prior, m, n, key), key);
    }
  }

  lemma NeedsIds(left: ToolResult, right: ToolResult)
    requires Equivalent(left, right)
    ensures left.callId.Some? && right.callId.Some?
  {
  }

  /** A link outlasts changes that only beat what was kept. */
  lemma LinkStays(prior: seq<ToolResult>, rs: seq<ToolResult>, links: seq<Link>, more: seq<Link>, i: nat)
    requires i < |links| <= |more| <= |rs| && LinkHolds(prior, rs, links, i) && more[i] == links[i]
    requires forall k :: 0 <= k < |links| ==> more[k] == links[k] || (links[k].Kept? && more[k].Beaten?)
    ensures LinkHolds(prior, rs, more, i)
  {
    hide Equivalent, Quality, FirstEquivalent;
  }

  lemma AddedExplains(prior: seq<ToolResult>, rs: seq<ToolResult>, m: Marking, links: seq<Link>, link: Link,
                      next: Marking, key: KeyParts -> string)
    requires Explains(prior, rs, m, links, key) && |links| < |rs|
    requires LinkHolds(prior, rs, links + [link], |links|) && !link.Beaten?
    requires next.results == m.results[|links| := Shown(prior, rs, |links|, link, key)]
    requires next.representatives == if link.Kept? then m.representatives + [|links|] else m.representatives
    ensures Explains(prior, rs, next, links + [link], key)
  {
    hide Equivalent, Quality, Shown, FirstEquivalent, LinkHolds;
    var more := links + [link];
    forall i | 0 <= i < |more| ensures LinkHolds(prior, rs, more, i) {
      if i < |links| {
        LinkStays(prior, rs, links, more, i);
      }
    }
  }

  lemma BeatenExplains(prior: seq<ToolResult>, rs: seq<ToolResult>, m: Marking, links: seq<Link>, j: nat,
                       key: KeyParts -> string)
    requires Explains(prior, rs, m, links, key) && |links| < |rs| && j < |m.representatives|
    requires var n, previous := |links|, m.representatives[j];
             && Equivalent(rs[n], rs[previous]) && Quality(rs[previous]) < Quality(rs[n])
             && rs[n].callId.Some? && FirstEquivalent(prior, rs[n]).None?
    ensures var n, previous := |links|, m.representatives[j];
            var next := Marking(m.results[previous := DuplicateOf(m.results[previous], ResultKey(key, rs[n]),
                rs[n].provenance)]
                                         [n := rs[n].(deduplicationKey := Some(ResultKey(key, rs[n])))],
                                m.representatives[j := n]);
            Explains(prior, rs, next, links[previous := Beaten(n)] + [Kept], key)
  {
    hide Equivalent, Quality, ResultKey, FirstEquivalent;
    var n, previous := |links|, m.representatives[j];
    var more := links[previous := Beaten(n)] + [Kept];
    forall i | 0 <= i < |more| ensures LinkHolds(prior, rs, more, i) {
      if i < n && i != previous {
        LinkStays(prior, rs, links, more, i);
      }
    }
    var after := m.representatives[j := n];
    forall i | 0 <= i < |more| && more[i].Kept? ensures i in after {
      if i < n {
        assert i in m.representatives;
        var k :| 0 <= k < |m.representatives| && m.representatives[k] == i;
        assert after[k] == i;
      } else {
        assert after[j] == n;
      }
    }
  }

  lemma {:induction false} LinksOf(prior: seq<ToolResult>, rs: seq<ToolResult>, n: nat, key: KeyParts -> string)
    returns (links: seq<Link>)
    requires n <= |rs| && forall i :: 0 <= i < |rs| ==> IsUnmarked(rs[i])
    ensures |links| == n && Explains(prior, rs, MarkFirst(prior, rs, n, key), links, key)
  {
    hide Equivalent, Quality, ResultKey, LinkHolds, Shown, MarkOne;
    links := [];
    if n > 0 {
      links := LinksOf(prior, rs, n - 1, key);
      var m := MarkFirst(prior, rs, n - 1, key);
      LinkedExplains(prior, rs, m, links, key);
      links := Linked(prior, m, links, key);
    }
  }

  /** Following the targets from `i` stays among equivalent results of no lower quality and ends within `hops` hops. */
  ghost predicate Ends(prior: seq<ToolResult>, rs: seq<ToolResult>, links: seq<Link>, i: nat, hops: nat)
    requires i < |links| == |rs|
    decreases hops
  {
    match links[i]
    case Kept => true
    case FromPrior(p) => hops > 0 && p < |prior| && Equivalent(prior[p], rs[i])
    case _ =>
      var t := links[i].target;
      && hops > 0 && t < |rs| && Equivalent(rs[t], rs[i]) && Quality(rs[i]) <= Quality(rs[t])
      && Ends(prior, rs, links, t, hops - 1)
  }

  /** Following the targets from `i`, the one in `prior` included, never comes to a result of lower quality. */
  ghost predicate NeverLower(prior: seq<ToolResult>, rs: seq<ToolResult>, links: seq<Link>, i: nat, hops: nat)
    requires i < |links| == |rs|
    decreases hops
  {
    match links[i]
    case Kept => true
    case FromPrior(p) => hops > 0 && p < |prior| && Quality(rs[i]) <= Quality(prior[p])
    case _ =>
      var t := links[i].target;
      hops > 0 && t < |rs| && Quality(rs[i]) <= Quality(rs[t]) && NeverLower(prior, rs, links, t, hops - 1)
  }

  lemma {:induction false} BeatenNeverLower(prior: seq<ToolResult>, rs: seq<ToolResult>, links: seq<Link>, i: nat,
                                            hops: nat)
    requires i < |links| == |rs| && (forall k :: 0 <= k < |links| ==> LinkHolds(prior, rs, links, k))
    requires (links[i].Kept? || links[i].Beaten?) && Ends(prior, rs, links, i, hops)
    ensures NeverLower(prior, rs, links, i, hops)
    decreases hops
  {
    hide Equivalent, Quality, FirstEquivalent;
    assert LinkHolds(prior, rs, links, i);
    if links[i].Beaten? {
      BeatenNeverLower(prior, rs, links, links[i].target, hops - 1);
    }
  }

  /** The quality can only fall at the hop to an earlier poll: when the first equivalent prior result is worse. */
  lemma NeverLowerIff(prior: seq<ToolResult>, rs: seq<ToolResult>, links: seq<Link>, i: nat, hops: nat)
    requires i < |links| == |rs| && (forall k :: 0 <= k < |links| ==> LinkHolds(prior, rs, links, k))
    requires Ends(prior, rs, links, i, hops)
    ensures NeverLower(prior, rs, links, i, hops) <==>
            match FirstEquivalent(prior, rs[i])
            case Some(p) => Quality(rs[i]) <= Quality(prior[p])
            case None => true
  {
    hide Equivalent, Quality, FirstEquivalent;
    assert LinkHolds(prior, rs, links, i);
    if links[i].Beaten? || links[i].Repeating? {
      BeatenNeverLower(prior, rs, links, links[i].target, hops - 1);
    }
  }

  lemma {:induction false} BeatenEnds(prior: seq<ToolResult>, rs: seq<ToolResult>, links: seq<Link>, i: nat)
    requires i < |links| == |rs| && (forall k :: 0 <= k < |links| ==> LinkHolds(prior, rs, links, k))
    requires links[i].Kept? || links[i].Beaten?
    ensures Ends(prior, rs, links, i, 3 - Quality(rs[i]))
    decreases 3 - Quality(rs[i])
  {
    hide Equivalent, Quality;
    assert LinkHolds(prior, rs, links, i);
    if links[i].Beaten? {
      var t := links[i].target;
      BeatenEnds(prior, rs, links, t);
      MoreHops(prior, rs, links, t, 3 - Quality(rs[t]), 3 - Quality(rs[i]) - 1);
    }
  }

  lemma {:induction false} MoreHops(prior: seq<ToolResult>, rs: seq<ToolResult>, links: seq<Link>, i: nat, hops: nat,
                                    more: nat)
    requires i < |links| == |rs| && hops <= more && Ends(prior, rs, links, i, hops)
    ensures Ends(prior, rs, links, i, more)
    decreases hops
  {
    hide Equivalent, Quality;
    if links[i].Beaten? || links[i].Repeating? {
      MoreHops(prior, rs, links, links[i].target, hops - 1, more - 1);
    }
  }

  /**
   * The marks left by one pass: the kept results are the representatives, every chain of targets is short, and quality
   * never falls along it exactly when the first equivalent prior result, if there is one, is no worse.
   */
  lemma DuplicatesReachKeptResults(prior: seq<ToolResult>, rs: seq<ToolResult>, key: KeyParts -> string)
    returns (links: seq<Link>)
    requires forall i :: 0 <= i < |rs| ==> IsUnmarked(rs[i])
    ensures var m := MarkAll(prior, rs, key);
            && |links| == |rs|
            && (forall i :: 0 <= i < |rs| ==>
                  LinkHolds(prior, rs, links, i) && m.results[i] == Shown(prior, rs, i, links[i], key))
            && (forall i :: 0 <= i < |rs| ==> (!m.results[i].isDuplicate <==> i in m.representatives))
            && (forall i :: 0 <= i < |rs| ==> (!m.results[i].isDuplicate <==> links[i].Kept?))
            && (forall i :: 0 <= i < |rs| ==> Ends(prior, rs, links, i, 4))
            && (forall i :: 0 <= i < |rs| ==>
                  (NeverLower(prior, rs, links, i, 4) <==>
                   match FirstEquivalent(prior, rs[i])
                   case Some(p) => Quality(rs[i]) <= Quality(prior[p])
                   case None => true))
  {
    hide Equivalent, Quality, ResultKey, MarkFirst, FirstEquivalent;
    links := LinksOf(prior, rs, |rs|, key);
    forall i | 0 <= i < |rs| ensures Ends(prior, rs, links, i, 4) {
      EndsInFour(prior, rs, links, i);
    }
    forall i | 0 <= i < |rs|
      ensures NeverLower(prior, rs, links, i, 4) <==>
              match FirstEquivalent(prior, rs[i])
              case Some(p) => Quality(rs[i]) <= Quality(prior[p])
              case None => true
    {
      NeverLowerIff(prior, rs, links, i, 4);
    }
  }

  lemma EndsInFour(prior: seq<ToolResult>, rs: seq<ToolResult>, links: seq<Link>, i: nat)
    requires i < |links| == |rs| && (forall k :: 0 <= k < |links| ==> LinkHolds(prior, rs, links, k))
    ensures Ends(prior, rs, links, i, 4)
  {
    hide Equivalent, Quality, FirstEquivalent;
    assert LinkHolds(prior, rs, links, i);
    if links[i].Repeating? || links[i].Beaten? {
      var t := links[i].target;
      BeatenEnds(prior, rs, links, t);
      MoreHops(prior, rs, links, t, 3 - Quality(rs[t]), 3);
    }
  }

  /** Output read in one poll and the exit code in the next: the better result is marked as repeating the worse. */
  lemma BetterResultMayRepeatAWorse(key: KeyParts -> string)
    ensures exists worse, better ::
              && Quality(worse) == 0 && Quality(better) == 3
              && MarkAll([worse], [better], key).results[0].isDuplicate
              && MarkAll([worse], [better], key).results[0].equivalentTo == Some(worse.provenance)
  {
    var worse := ToolResult(Some("c"), None, None, None, None, None, None, None, None, None, Unknown, FromNowhere,
                            None, None, false, Provenance("log", 1));
    var better := worse.(exitCode := Some(0), outcome := Succeeded, outcomeSource := FromExitCode,
        provenance := Provenance("log", 2));
    assert Equivalent(worse, better);
    assert MarkFirst([worse], [better], 0, key) == Marking([better], []);
    assert MarkFirst([worse], [better], 1, key) == MarkOne([worse], Marking([better], []), 0, key);
    hide ResultKey, Equivalent;
    assert FirstEquivalent([worse], better) == Some(0);
    assert MarkAll([worse], [better], key).results[0] == DuplicateOf(better, KeyOf(key, worse), worse.provenance);
  }
}
