/** Logs in which a call's result is reported more than once: reduced to logs with one result per call. */
module FileOperationRepeats {
  import opened Wrappers
  import opened Slices
  import opened Correlation
  import opened Duplicates
  import opened FileOperations
  import opened FileOperationSets
  import opened FileOperationRuns

  // ---- Extraction never looks at duplicates ----

  /** The results not marked as duplicates, in order. */
  function Originals(results: seq<ToolResult>): seq<ToolResult>
  {
    if results == [] then []
    else
      var init, last := results[..|results| - 1], results[|results| - 1];
      Originals(init) + if last.isDuplicate then [] else [last]
  }

  lemma CandidatesSnocOf(results: seq<ToolResult>, r: ToolResult, calls: seq<ToolCall>, call: ToolCall)
    ensures CandidateResults(results + [r], calls, call) ==
            CandidateResults(results, calls, call) + if BelongsTo(r, calls, call) then [r] else []
  {
    hide BelongsTo;
    assert (results + [r])[..|results|] == results;
  }

  lemma DuplicatesBelongNowhere(r: ToolResult, calls: seq<ToolCall>, call: ToolCall)
    ensures r.isDuplicate ==> !BelongsTo(r, calls, call)
  {
  }

  lemma {:induction false} CandidatesOfOriginals(results: seq<ToolResult>, calls: seq<ToolCall>, call: ToolCall)
    ensures CandidateResults(Originals(results), calls, call) == CandidateResults(results, calls, call)
  {
    hide BelongsTo;
    if results != [] {
      var init, last := results[..|results| - 1], results[|results| - 1];
      CandidatesOfOriginals(init, calls, call);
      DuplicatesBelongNowhere(last, calls, call);
      CandidatesSnocOf(Originals(init), last, calls, call);
      NothingAdded(Originals(init), Originals(init));
      NothingAdded(CandidateResults(init, calls, call), CandidateResults(init, calls, call));
    }
  }

  lemma FailuresOfOriginals(results: seq<ToolResult>, calls: seq<ToolCall>, call: ToolCall, env: Reading)
    ensures CallFails(Originals(results), calls, call, env) == CallFails(results, calls, call, env)
    ensures CallIsFailed(Originals(results), calls, call, env) == CallIsFailed(results, calls, call, env)
  {
    hide Originals, CandidateResults, ExactResults;
    CandidatesOfOriginals(results, calls, call);
  }

  lemma SkippedOfOriginals(r: ToolResult, results: seq<ToolResult>, calls: seq<ToolCall>, env: Reading)
    ensures ResultIsSkipped(r, Originals(results), calls, env) == ResultIsSkipped(r, results, calls, env)
  {
    hide Originals, CallIsFailed, CallFails, MatchingCall, ResultIsFailed;
    var m := MatchingCall(calls, r);
    if m.Some? {
      FailuresOfOriginals(results, calls, m.value, env);
    }
  }

  lemma {:induction false} PriorPassOfOriginals(
      prior: seq<ToolCall>, n: nat, results: seq<ToolResult>, calls: seq<ToolCall>, env: Reading)
    requires n <= |prior|
    ensures PriorPass(prior, n, Originals(results), calls, env) == PriorPass(prior, n, results, calls, env)
  {
    hide CallFails, CallOperations, ClaimAll, Originals, Plain;
    if n > 0 {
      PriorPassOfOriginals(prior, n - 1, results, calls, env);
      FailuresOfOriginals(results, calls, prior[n - 1], env);
    }
  }

  lemma {:induction false} CallPassOfOriginals(
      x: Extraction, current: seq<ToolCall>, n: nat, results: seq<ToolResult>, calls: seq<ToolCall>, env: Reading)
    requires n <= |current|
    ensures CallPass(x, current, n, Originals(results), calls, env) == CallPass(x, current, n, results, calls, env)
  {
    hide CallFails, CallOperations, EmitAll, Originals;
    if n > 0 {
      CallPassOfOriginals(x, current, n - 1, results, calls, env);
      FailuresOfOriginals(results, calls, current[n - 1], env);
    }
  }

  lemma OriginalsSnoc(results: seq<ToolResult>, n: nat)
    requires 0 < n <= |results|
    ensures Originals(results[..n]) ==
            if results[n - 1].isDuplicate then Originals(results[..n - 1])
                else Originals(results[..n - 1]) + [results[n - 1]]
  {
    assert results[..n][..n - 1] == results[..n - 1];
  }

  lemma {:induction false} OriginalsPrefix(results: seq<ToolResult>, n: nat)
    requires n <= |results|
    ensures Originals(results[..n]) <= Originals(results)
    decreases |results| - n
  {
    hide Originals;
    if n < |results| {
      OriginalsPrefix(results, n + 1);
      OriginalsSnoc(results, n + 1);
    } else {
      TakeAll(results, n);
    }
  }

  lemma {:induction false} ResultPassOfOriginals(
      x: Extraction, n: nat, results: seq<ToolResult>, calls: seq<ToolCall>, env: Reading)
    requires n <= |results|
    ensures |Originals(results[..n])| <= |Originals(results)|
    ensures ResultPass(x, |Originals(results[..n])|, Originals(results), calls, env) ==
        ResultPass(x, n, results, calls, env)
  {
    hide ResultIsSkipped, MatchingCall, ResultOperations, AddAll, Originals;
    OriginalsPrefix(results, n);
    if n == 0 {
      NoOriginals(results);
    } else {
      ResultPassOfOriginals(x, n - 1, results, calls, env);
      OriginalsSnoc(results, n);
      SkippedOfOriginals(results[n - 1], results, calls, env);
      DuplicatesAreSkipped(results[n - 1], results, calls, env);
      var before := Originals(results[..n - 1]);
      assert !results[n - 1].isDuplicate ==> Originals(results[..n])[|before|] == results[n - 1];
    }
  }

  lemma NoOriginals(results: seq<ToolResult>)
    ensures Originals(results[..0]) == []
  {
  }

  lemma DuplicatesAreSkipped(r: ToolResult, results: seq<ToolResult>, calls: seq<ToolCall>, env: Reading)
    ensures r.isDuplicate ==> ResultIsSkipped(r, results, calls, env)
  {
  }

  /** Duplicates change nothing in an extraction. */
  lemma ExtractOfOriginals(prior: seq<ToolCall>, current: seq<ToolCall>, results: seq<ToolResult>, env: Reading)
    ensures Extract(prior, current, Originals(results), env) == Extract(prior, current, results, env)
  {
    hide Originals, PriorPass, CallPass, ResultPass;
    var calls := prior + current;
    PriorPassOfOriginals(prior, |prior|, results, calls, env);
    var x := PriorPass(prior, |prior|, results, calls, env);
    CallPassOfOriginals(x, current, |current|, results, calls, env);
    ResultPassOfOriginals(CallPass(x, current, |current|, results, calls, env), |results|, results, calls, env);
    TakeAll(results, |results|);
  }

  // ---- Which report of a call stays ----

  function Ids(results: seq<ToolResult>): set<Option<string>>
  {
    set r | r in results :: r.callId
  }

  /** Reports of one call never contradict each other. */
  ghost predicate Agree(results: seq<ToolResult>)
  {
    && (forall i :: 0 <= i < |results| ==> results[i].callId.Some?)
    && forall i, j :: 0 <= i < |results| && 0 <= j < |results| && results[i].callId == results[j].callId ==>
         Equivalent(results[i], results[j])
  }

  ghost predicate AgreeWith(prior: seq<ToolResult>, results: seq<ToolResult>)
  {
    forall p, r :: p in prior && r in results && p.callId == r.callId ==> Equivalent(p, r)
  }

  /** No earlier report of the same call is as good, no later one better. */
  ghost predicate IsBestBefore(rs: seq<ToolResult>, k: nat, n: nat)
    requires n <= |rs|
  {
    k < n && forall i :: 0 <= i < n && rs[i].callId == rs[k].callId ==>
      Quality(rs[i]) <= Quality(rs[k]) && (i < k ==> Quality(rs[i]) < Quality(rs[k]))
  }

  ghost predicate IsBest(known: set<Option<string>>, rs: seq<ToolResult>, k: nat)
  {
    IsBestBefore(rs, k, |rs|) && rs[k].callId !in known
  }

  lemma BestIsUnique(rs: seq<ToolResult>, a: nat, b: nat, n: nat)
    requires n <= |rs| && IsBestBefore(rs, a, n) && IsBestBefore(rs, b, n) && rs[a].callId == rs[b].callId
    ensures a == b
  {
    hide Quality;
  }

  /** The representatives of a pass are the best reports of the calls that no prior result belongs to. */
  ghost predicate BestSoFar(known: set<Option<string>>, rs: seq<ToolResult>, n: nat, representatives: seq<nat>)
  {
    && n <= |rs| && InRange(representatives, n)
    && (forall j, k :: 0 <= j < k < |representatives| ==> representatives[j] != representatives[k])
    && (forall j :: 0 <= j < |representatives| ==>
          IsBestBefore(rs, representatives[j], n) && rs[representatives[j]].callId !in known)
    && (forall i :: 0 <= i < n && rs[i].callId !in known ==> Represented(rs, representatives, rs[i].callId))
  }

  ghost predicate Represented(rs: seq<ToolResult>, representatives: seq<nat>, id: Option<string>)
    requires InRange(representatives, |rs|)
  {
    exists j :: 0 <= j < |representatives| && rs[representatives[j]].callId == id
  }

  lemma KnownIff(prior: seq<ToolResult>, rs: seq<ToolResult>, k: nat)
    requires k < |rs| && AgreeWith(prior, rs)
    ensures FirstEquivalent(prior, rs[k]).Some? <==> rs[k].callId in Ids(prior)
  {
    hide FirstEquivalent, Equivalent;
    assert rs[k] in rs;
    forall i | 0 <= i < |prior| ensures Equivalent(prior[i], rs[k]) <==> prior[i].callId == rs[k].callId {
      assert prior[i] in prior;
      EquivalentNeedsSameId(prior[i], rs[k]);
    }
  }

  lemma FoundIff(rs: seq<ToolResult>, m: Marking, n: nat, key: KeyParts -> string, links: seq<Link>,
                 prior: seq<ToolResult>)
    requires n < |rs| && |links| == n && Agree(rs) && Explains(prior, rs, m, links, key)
    ensures var found := FirstEquivalent(Pick(m.results, m.representatives), rs[n]);
            && (found.Some? <==> Represented(rs, m.representatives, rs[n].callId))
            && (found.Some? ==> rs[m.representatives[found.value]].callId == rs[n].callId)
            && (found.Some? ==>
                Quality(m.results[m.representatives[found.value]]) == Quality(rs[m.representatives[found.value]]))
  {
    hide FirstEquivalent, Equivalent, Quality, LinkHolds;
    forall j | 0 <= j < |m.representatives|
      ensures var k := m.representatives[j];
              && Equivalent(m.results[k], rs[n]) == (rs[k].callId == rs[n].callId)
              && Quality(m.results[k]) == Quality(rs[k])
    {
      var k := m.representatives[j];
      MarksDoNotMatter(rs[k], m.results[k], key);
      EquivalentNeedsSameId(rs[k], rs[n]);
    }
  }

  lemma EquivalentNeedsSameId(a: ToolResult, b: ToolResult)
    ensures Equivalent(a, b) ==> a.callId == b.callId
  {
  }

  /** One more report: of a known call, of a new one, or of one that has a representative. */
  ghost predicate IsStep(known: set<Option<string>>, rs: seq<ToolResult>, n: nat, before: seq<nat>, after: seq<nat>)
    requires n < |rs| && InRange(before, n)
  {
    || (rs[n].callId in known && after == before)
    || (rs[n].callId !in known && !Represented(rs, before, rs[n].callId) && after == before + [n])
    || exists j :: 0 <= j < |before| && rs[before[j]].callId == rs[n].callId
                   && after == if Quality(rs[n]) > Quality(rs[before[j]]) then before[j := n] else before
  }

  lemma BestStep(known: set<Option<string>>, rs: seq<ToolResult>, n: nat, before: seq<nat>, after: seq<nat>)
    requires n < |rs| && BestSoFar(known, rs, n, before) && IsStep(known, rs, n, before, after)
    ensures BestSoFar(known, rs, n + 1, after)
  {
    hide Quality, IsBestBefore;
    if rs[n].callId in known && after == before {
      forall j | 0 <= j < |before| ensures IsBestBefore(rs, before[j], n + 1) {
        OtherCallStaysBest(rs, before[j], n);
      }
    } else if rs[n].callId !in known && !Represented(rs, before, rs[n].callId) && after == before + [n] {
      NewCallIsBest(rs, n, before, known);
      forall j | 0 <= j < |before| ensures IsBestBefore(rs, before[j], n + 1) {
        OtherCallStaysBest(rs, before[j], n);
      }
      RepresentedStays(rs, before, after, n);
    } else {
      var j :| 0 <= j < |before| && rs[before[j]].callId == rs[n].callId
               && after == if Quality(rs[n]) > Quality(rs[before[j]]) then before[j := n] else before;
      ReplacedIsBest(known, rs, n, before, after, j);
    }
  }

  lemma OtherCallStaysBest(rs: seq<ToolResult>, k: nat, n: nat)
    requires n < |rs| && IsBestBefore(rs, k, n) && rs[k].callId != rs[n].callId
    ensures IsBestBefore(rs, k, n + 1)
  {
    hide Quality;
  }

  lemma NewCallIsBest(rs: seq<ToolResult>, n: nat, before: seq<nat>, known: set<Option<string>>)
    requires n < |rs| && BestSoFar(known, rs, n, before)
    requires rs[n].callId !in known && !Represented(rs, before, rs[n].callId)
    ensures IsBestBefore(rs, n, n + 1)
  {
    hide Quality, Represented;
    forall i | 0 <= i < n ensures rs[i].callId != rs[n].callId {
    }
  }

  lemma RepresentedStays(rs: seq<ToolResult>, before: seq<nat>, after: seq<nat>, n: nat)
    requires n < |rs| && InRange(before, n) && after == before + [n]
    ensures forall id :: Represented(rs, before, id) ==> Represented(rs, after, id)
    ensures Represented(rs, after, rs[n].callId)
  {
    assert after[|before|] == n;
    forall id | Represented(rs, before, id) ensures Represented(rs, after, id) {
      var j :| 0 <= j < |before| && rs[before[j]].callId == id;
      assert after[j] == before[j];
    }
  }

  lemma BetterOfTwo(rs: seq<ToolResult>, first: nat, n: nat, best: nat)
    requires n < |rs| && IsBestBefore(rs, first, n) && rs[first].callId == rs[n].callId
    requires best == if Quality(rs[n]) > Quality(rs[first]) then n else first
    ensures IsBestBefore(rs, best, n + 1)
  {
    hide Quality;
  }

  lemma ReplacedIsBest(known: set<Option<string>>, rs: seq<ToolResult>, n: nat, before: seq<nat>, after: seq<nat>,
                       j: nat)
    requires n < |rs| && BestSoFar(known, rs, n, before) && j < |before| && rs[before[j]].callId == rs[n].callId
    requires after == if Quality(rs[n]) > Quality(rs[before[j]]) then before[j := n] else before
    ensures BestSoFar(known, rs, n + 1, after)
  {
    hide Quality, IsBestBefore, Represented;
    forall i | 0 <= i < |after| ensures IsBestBefore(rs, after[i], n + 1) && rs[after[i]].callId !in known {
      if i != j {
        if rs[before[i]].callId == rs[n].callId {
          BestIsUnique(rs, before[i], before[j], n);
        }
        OtherCallStaysBest(rs, before[i], n);
      } else {
        BetterOfTwo(rs, before[j], n, after[i]);
      }
    }
    forall i | 0 <= i < n + 1 && rs[i].callId !in known ensures Represented(rs, after, rs[i].callId) {
      SameCallsRepresented(rs, before, after, n, j, rs[i].callId);
    }
  }

  lemma SameCallsRepresented(rs: seq<ToolResult>, before: seq<nat>, after: seq<nat>, n: nat, j: nat, id: Option<string>)
    requires n < |rs| && InRange(before, n) && j < |before| && rs[before[j]].callId == rs[n].callId
    requires after == before[j := n] || after == before
    ensures Represented(rs, before, id) || id == rs[n].callId ==> Represented(rs, after, id)
  {
    if id == rs[n].callId {
      assert rs[after[j]].callId == id;
    } else if Represented(rs, before, id) {
      var k :| 0 <= k < |before| && rs[before[k]].callId == id;
      assert after[k] == before[k];
    }
  }

  /** What one step of the pass does to the representatives. */
  lemma RepresentativesNext(prior: seq<ToolResult>, rs: seq<ToolResult>, m: Marking, links: seq<Link>,
                            key: KeyParts -> string)
    requires |links| < |rs| && Agree(rs) && AgreeWith(prior, rs) && Explains(prior, rs, m, links, key)
    ensures IsStep(Ids(prior), rs, |links|, m.representatives, MarkOne(prior, m, |links|, key).representatives)
  {
    KnownIff(prior, rs, |links|);
    FoundIff(rs, m, |links|, key, links, prior);
    LastIsAsGiven(prior, rs, m, links, key);
    hide Quality, Equivalent, ResultKey, FirstEquivalent, Agree, AgreeWith, Represented, Ids, LinkHolds, DuplicateOf,
         KeyOf;
    if FirstEquivalent(prior, rs[|links|]).None? {
      var found := FirstEquivalent(Pick(m.results, m.representatives), rs[|links|]);
      if found.Some? {
        assert rs[m.representatives[found.value]].callId == rs[|links|].callId;
      }
    }
  }

  lemma {:induction false} RepresentativesAreBest(prior: seq<ToolResult>, rs: seq<ToolResult>, n: nat,
                                                  key: KeyParts -> string)
    requires n <= |rs| && Agree(rs) && AgreeWith(prior, rs) && forall i :: 0 <= i < |rs| ==> IsUnmarked(rs[i])
    ensures BestSoFar(Ids(prior), rs, n, MarkFirst(prior, rs, n, key).representatives)
  {
    hide Quality, Equivalent, ResultKey, FirstEquivalent, Explains, BestSoFar, Agree, AgreeWith, Ids, IsStep, MarkOne,
         IsUnmarked;
    if n == 0 {
      NoneIsBest(Ids(prior), rs);
    } else {
      RepresentativesAreBest(prior, rs, n - 1, key);
      var links := LinksOf(prior, rs, n - 1, key);
      var m := MarkFirst(prior, rs, n - 1, key);
      RepresentativesNext(prior, rs, m, links, key);
      RangeOfBest(Ids(prior), rs, n - 1, m.representatives);
      BestStep(Ids(prior), rs, n - 1, m.representatives, MarkOne(prior, m, n - 1, key).representatives);
    }
  }

  lemma NoneIsBest(known: set<Option<string>>, rs: seq<ToolResult>)
    ensures BestSoFar(known, rs, 0, [])
  {
  }

  lemma RangeOfBest(known: set<Option<string>>, rs: seq<ToolResult>, n: nat, representatives: seq<nat>)
    requires BestSoFar(known, rs, n, representatives)
    ensures InRange(representatives, n)
  {
  }

  lemma LastIsAsGiven(prior: seq<ToolResult>, rs: seq<ToolResult>, m: Marking, links: seq<Link>,
                      key: KeyParts -> string)
    requires Explains(prior, rs, m, links, key) && |links| < |rs|
    ensures m.results[|links|] == rs[|links|]
  {
  }

  /** A pass leaves unmarked, as they were but for their key, exactly the best report of each call it sees first. */
  lemma KeptAreBest(prior: seq<ToolResult>, rs: seq<ToolResult>, env: Reading, k: nat)
    requires Agree(rs) && AgreeWith(prior, rs) && (forall i :: 0 <= i < |rs| ==> IsUnmarked(rs[i])) && k < |rs|
    ensures var marked := Marked(prior, rs, env);
            && |marked| == |rs| && (!marked[k].isDuplicate <==> IsBest(Ids(prior), rs, k))
            && (!marked[k].isDuplicate ==> marked[k] == KeptForm(rs[k], env))
            && marked[k].callId == rs[k].callId && marked[k].sessionId == rs[k].sessionId
            && marked[k].turnId == rs[k].turnId
  {
    hide Quality, Equivalent, ResultKey, FirstEquivalent, MarkFirst, Ends, NeverLower, Agree, AgreeWith, Ids;
    var links := DuplicatesReachKeptResults(prior, rs, env.key);
    RepresentativesAreBest(prior, rs, |rs|, env.key);
    assert LinkHolds(prior, rs, links, k);
    IdsAreGiven(rs);
    BestIff(Ids(prior), rs, MarkAll(prior, rs, env.key).representatives, k);
  }

  lemma IdsAreGiven(rs: seq<ToolResult>)
    requires Agree(rs)
    ensures forall i :: 0 <= i < |rs| ==> rs[i].callId.Some?
  {
  }

  lemma BestIff(known: set<Option<string>>, rs: seq<ToolResult>, representatives: seq<nat>, k: nat)
    requires BestSoFar(known, rs, |rs|, representatives) && k < |rs|
    ensures k in representatives <==> IsBest(known, rs, k)
  {
    hide Quality, IsBestBefore;
    if IsBest(known, rs, k) {
      var j :| 0 <= j < |representatives| && rs[representatives[j]].callId == rs[k].callId;
      BestIsUnique(rs, k, representatives[j], |rs|);
    }
  }

  /** Every call reported at all has a best report. */
  lemma {:induction false} BestExists(rs: seq<ToolResult>, n: nat, id: Option<string>) returns (k: nat)
    requires n <= |rs| && exists i :: 0 <= i < n && rs[i].callId == id
    ensures IsBestBefore(rs, k, n) && rs[k].callId == id
  {
    hide Quality;
    if exists i :: 0 <= i < n - 1 && rs[i].callId == id {
      k := BestExists(rs, n - 1, id);
      if rs[n - 1].callId == id {
        var best := if Quality(rs[n - 1]) > Quality(rs[k]) then n - 1 else k;
        BetterOfTwo(rs, k, n - 1, best);
        k := best;
      } else {
        OtherCallStaysBest(rs, k, n - 1);
      }
    } else {
      k := n - 1;
    }
  }

  // ---- The log with one result per call ----

  ghost function Chosen(known: set<Option<string>>, rs: seq<ToolResult>, n: nat): seq<ToolResult>
    requires n <= |rs|
  {
    if n == 0 then [] else Chosen(known, rs, n - 1) + if IsBest(known, rs, n - 1) then [rs[n - 1]] else []
  }

  lemma {:induction false} OriginalsAreChosen(prior: seq<ToolResult>, rs: seq<ToolResult>, n: nat, env: Reading)
    requires n <= |rs| && Agree(rs) && AgreeWith(prior, rs) && forall i :: 0 <= i < |rs| ==> IsUnmarked(rs[i])
    ensures |Marked(prior, rs, env)| == |rs|
    ensures Originals(Marked(prior, rs, env)[..n]) == AllKept(Chosen(Ids(prior), rs, n), env)
  {
    hide Marked, Originals, IsBest, Agree, AgreeWith, ResultKey, Ids, IsUnmarked;
    MarkedLength(prior, rs, env);
    if n == 0 {
      NoOriginals(Marked(prior, rs, env));
    } else {
      OriginalsAreChosen(prior, rs, n - 1, env);
      OriginalsSnoc(Marked(prior, rs, env), n);
      KeptAreBest(prior, rs, env, n - 1);
      AllKeptConcat(Chosen(Ids(prior), rs, n - 1), [rs[n - 1]], env);
      assert AllKept([rs[n - 1]], env) == [KeptForm(rs[n - 1], env)];
    }
  }

  lemma MarkedLength(prior: seq<ToolResult>, rs: seq<ToolResult>, env: Reading)
    ensures |Marked(prior, rs, env)| == |rs|
  {
  }

  lemma {:induction false} ChosenMembers(known: set<Option<string>>, rs: seq<ToolResult>, n: nat)
    requires n <= |rs|
    ensures forall r :: r in Chosen(known, rs, n) ==> exists k: nat :: k < n && IsBest(known, rs, k) && rs[k] == r
    ensures forall k: nat :: k < n && IsBest(known, rs, k) ==> rs[k] in Chosen(known, rs, n)
  {
    hide IsBest;
    if n > 0 {
      ChosenMembers(known, rs, n - 1);
    }
  }

  /** In each batch, of the calls not reported before, the best report. */
  ghost function Reduced(batches: seq<Batch>): seq<Batch>
  {
    if batches == [] then []
    else
      var init, last := batches[..|batches| - 1], batches[|batches| - 1];
      Reduced(init) + [ReducedNext(Merged(init), last)]
  }

  ghost function ReducedNext(before: Batch, last: Batch): Batch
  {
    Batch(last.calls, Chosen(Ids(before.results), last.results, |last.results|))
  }

  ghost predicate MatchedBefore(before: seq<ToolResult>, r: ToolResult)
  {
    exists t :: t in before && t.callId == r.callId && Quality(r) <= Quality(t)
  }

  /** A later poll never brings a better report of a call than the best one so far. */
  ghost predicate NoBetterLater(batches: seq<Batch>)
  {
    forall j, r :: 0 <= j < |batches| && r in batches[j].results && r.callId in Ids(Merged(batches[..j]).results) ==>
      MatchedBefore(Merged(batches[..j]).results, r)
  }

  /** When a call is reported again, an earlier report is still among the results carried along. */
  ghost predicate StillRecent(batches: seq<Batch>)
  {
    forall j, r :: 0 <= j < |batches| && r in batches[j].results && r.callId in Ids(Merged(batches[..j]).results) ==>
      r.callId in Ids(LastN(Merged(batches[..j]).results, MAX_RECENT_TOOL_RESULTS))
  }

  /** Like a well-formed log, but a call may be reported any number of times, in the same poll or in later ones. */
  ghost predicate WellFormedWithRepeats(batches: seq<Batch>)
  {
    var all := Merged(batches);
    && UniqueCalls(all.calls) && Agree(all.results) && AllUnmarked(all.results)
    && Fits(all.calls, all.results) && OwnPlaces(all.calls, all.results)
    && NoResultBeforeItsCall(batches) && StillRecent(batches)
  }

  // ---- The reduced log is well formed ----

  lemma ReducedIs(batches: seq<Batch>)
    requires batches != []
    ensures var init, last := batches[..|batches| - 1], batches[|batches| - 1];
            && Reduced(batches)[..|Reduced(batches)| - 1] == Reduced(init)
            && Reduced(batches)[|Reduced(batches)| - 1] == ReducedNext(Merged(init), last)
            && Merged(Reduced(batches)) == Batch(Merged(Reduced(init)).calls + last.calls,
                                                 Merged(Reduced(init)).results
                                                     + ReducedNext(Merged(init), last).results)
  {
    hide Chosen, Merged;
    var reduced := Reduced(batches);
    assert reduced[..|reduced| - 1] == Reduced(batches[..|batches| - 1]);
    MergedIs(reduced);
  }

  lemma NothingReduced()
    ensures Merged([]) == Batch([], []) && Reduced([]) == [] && Merged(Reduced([])) == Batch([], [])
        && Chosen({}, [], 0) == []
  {
  }

  lemma ReducedLength(batches: seq<Batch>)
    requires batches != []
    ensures |Reduced(batches)| == |Reduced(batches[..|batches| - 1])| + 1
  {
  }

  lemma ChosenFromGiven(known: set<Option<string>>, rs: seq<ToolResult>)
    ensures forall r :: r in Chosen(known, rs, |rs|) ==> r in rs
  {
    hide IsBest;
    ChosenMembers(known, rs, |rs|);
  }

  lemma {:induction false} ReducedShape(batches: seq<Batch>)
    ensures |Reduced(batches)| == |batches| && Merged(Reduced(batches)).calls == Merged(batches).calls
    ensures forall i :: 0 <= i < |batches| ==>
              && Reduced(batches)[i].calls == batches[i].calls
              && forall r :: r in Reduced(batches)[i].results ==> r in batches[i].results
    ensures forall r :: r in Merged(Reduced(batches)).results ==> r in Merged(batches).results
  {
    hide IsBest, Chosen, Merged, Reduced, Ids;
    if batches == [] {
      NothingReduced();
    } else {
      var n := |batches| - 1;
      var init, last := batches[..n], batches[n];
      ReducedShape(init);
      ReducedIs(batches);
      MergedIs(batches);
      ReducedLength(batches);
      ChosenFromGiven(Ids(Merged(init).results), last.results);
      forall i | 0 <= i < |batches|
        ensures Reduced(batches)[i].calls == batches[i].calls
        ensures forall r :: r in Reduced(batches)[i].results ==> r in batches[i].results
      {
        if i < n {
          assert Reduced(batches)[i] == Reduced(init)[i] && batches[i] == init[i];
        }
      }
    }
  }

  lemma {:induction false} ReducedPrefix(batches: seq<Batch>, n: nat)
    requires n <= |batches|
    ensures |Reduced(batches)| == |batches| && Reduced(batches)[..n] == Reduced(batches[..n])
    decreases |batches| - n
  {
    hide ReducedNext, Merged;
    ReducedShape(batches);
    if n < |batches| {
      ReducedPrefix(batches, n + 1);
      ReducedShape(batches[..n + 1]);
      ReducedIs(batches[..n + 1]);
      assert batches[..n + 1][..n] == batches[..n];
      assert Reduced(batches)[..n] == Reduced(batches)[..n + 1][..n];
    } else {
      TakeAll(batches, n);
      TakeAll(Reduced(batches), n);
    }
  }

  lemma {:induction false} ChosenAreUnique(known: set<Option<string>>, rs: seq<ToolResult>, n: nat)
    requires n <= |rs| && forall i :: 0 <= i < |rs| ==> rs[i].callId.Some?
    ensures UniqueResults(Chosen(known, rs, n))
  {
    hide IsBestBefore;
    if n > 0 {
      ChosenAreUnique(known, rs, n - 1);
      ChosenMembers(known, rs, n - 1);
      var before := Chosen(known, rs, n - 1);
      if IsBest(known, rs, n - 1) {
        forall i | 0 <= i < |before| ensures before[i].callId != rs[n - 1].callId {
          assert before[i] in before;
          var k: nat :| k < n - 1 && IsBest(known, rs, k) && rs[k] == before[i];
          if rs[k].callId == rs[n - 1].callId {
            BestIsUnique(rs, k, n - 1, |rs|);
          }
        }
      }
    }
  }

  lemma UniqueTogether(a: seq<ToolResult>, b: seq<ToolResult>)
    requires UniqueResults(a) && UniqueResults(b) && forall r, s :: r in a && s in b ==> r.callId != s.callId
    ensures UniqueResults(a + b)
  {
    forall i, j | 0 <= i < j < |a + b| ensures (a + b)[i].callId != (a + b)[j].callId {
      if i < |a| <= j {
        assert a[i] in a && b[j - |a|] in b;
      }
    }
  }

  lemma {:induction false} ReducedIsUnique(batches: seq<Batch>)
    requires forall r :: r in Merged(batches).results ==> r.callId.Some?
    ensures UniqueResults(Merged(Reduced(batches)).results)
    ensures forall s :: s in Merged(batches).results ==> ReportedIn(Merged(Reduced(batches)).results, s.callId)
  {
    if batches != [] {
      var n := |batches| - 1;
      var init, last := batches[..n], batches[n];
      var before := Merged(init);
      ReducedIs(batches);
      assert forall r :: r in Merged(batches).results <==> r in before.results || r in last.results;
      ReducedIsUnique(init);
      ReducedShape(init);
      var known := Ids(before.results);
      var chosen := Chosen(known, last.results, |last.results|);
      assert forall i :: 0 <= i < |last.results| ==> last.results[i] in last.results;
      ChosenAreUnique(known, last.results, |last.results|);
      ChosenMembers(known, last.results, |last.results|);
      hide Chosen, IsBestBefore;
      UniqueTogether(Merged(Reduced(init)).results, chosen);
      forall s | s in Merged(batches).results ensures ReportedIn(Merged(Reduced(init)).results + chosen, s.callId) {
        ReportedStays(Merged(Reduced(init)).results, chosen, s.callId);
        if s in last.results && s.callId !in known {
          var i :| 0 <= i < |last.results| && last.results[i] == s;
          var k := BestExists(last.results, |last.results|, s.callId);
          assert IsBest(known, last.results, k);
        } else if s in last.results {
          var t :| t in before.results && t.callId == s.callId;
        }
      }
    }
  }

  ghost predicate ReportedIn(results: seq<ToolResult>, id: Option<string>)
  {
    exists r :: r in results && r.callId == id
  }

  lemma ReportedStays(a: seq<ToolResult>, b: seq<ToolResult>, id: Option<string>)
    ensures ReportedIn(a, id) || ReportedIn(b, id) ==> ReportedIn(a + b, id)
  {
    if ReportedIn(a, id) {
      var r :| r in a && r.callId == id;
      assert r in a + b;
    } else if ReportedIn(b, id) {
      var r :| r in b && r.callId == id;
      assert r in a + b;
    }
  }

  lemma ReducedIsWellFormed(batches: seq<Batch>)
    requires WellFormedWithRepeats(batches)
    ensures WellFormed(Reduced(batches))
  {
    hide Equivalent, StillRecent, Reduced, Merged, UniqueResults;
    var all, reduced := Merged(batches), Merged(Reduced(batches));
    ReducedShape(batches);
    assert forall r :: r in all.results ==> r.callId.Some?;
    ReducedIsUnique(batches);
    assert forall i :: 0 <= i < |reduced.results| ==> reduced.results[i] in all.results;
  }

  // ---- The same calls are answered ----

  lemma {:induction false} SameUnanswered(calls: seq<ToolCall>, a: seq<ToolResult>, b: seq<ToolResult>)
    requires forall c :: c in calls ==> (IsAnswered(c, a) <==> IsAnswered(c, b))
    ensures Unanswered(calls, a) == Unanswered(calls, b)
  {
    hide Answers;
    if calls != [] {
      SameUnanswered(calls[..|calls| - 1], a, b);
      assert calls[|calls| - 1] in calls;
      assert IsAnswered(calls[|calls| - 1], a) <==> IsAnswered(calls[|calls| - 1], b);
    }
  }

  ghost predicate IsAnswered(c: ToolCall, results: seq<ToolResult>)
  {
    exists r :: r in results && Answers(r, c)
  }

  lemma AgreeingAnswer(results: seq<ToolResult>, r: ToolResult, s: ToolResult, c: ToolCall)
    requires Agree(results) && r in results && s in results && r.callId == s.callId
    ensures Answers(r, c) == Answers(s, c)
  {
    var i :| 0 <= i < |results| && results[i] == r;
    var j :| 0 <= j < |results| && results[j] == s;
    assert Equivalent(results[i], results[j]);
  }

  lemma ReducedAnswersAlike(batches: seq<Batch>)
    requires Agree(Merged(batches).results)
    ensures forall c :: IsAnswered(c, Merged(batches).results) <==> IsAnswered(c, Merged(Reduced(batches)).results)
  {
    hide Answers, Agree, Merged, Reduced;
    var all, reduced := Merged(batches).results, Merged(Reduced(batches)).results;
    ReducedShape(batches);
    IdsAreGiven(all);
    assert forall r :: r in all ==> r.callId.Some?;
    ReducedIsUnique(batches);
    forall c ensures IsAnswered(c, all) <==> IsAnswered(c, reduced) {
      if IsAnswered(c, all) {
        var s :| s in all && Answers(s, c);
        var r :| r in reduced && r.callId == s.callId;
        AgreeingAnswer(all, r, s, c);
      }
    }
  }

  lemma {:induction false} MergedPrefix(batches: seq<Batch>, n: nat)
    requires n <= |batches|
    ensures Merged(batches[..n]).calls <= Merged(batches).calls
        && Merged(batches[..n]).results <= Merged(batches).results
    decreases |batches| - n
  {
    hide Merged;
    if n < |batches| {
      MergedPrefix(batches, n + 1);
      MergedIs(batches[..n + 1]);
      assert batches[..n + 1][..n] == batches[..n];
    } else {
      TakeAll(batches, n);
    }
  }

  lemma AgreePrefix(a: seq<ToolResult>, all: seq<ToolResult>)
    requires a <= all && Agree(all)
    ensures Agree(a)
  {
    hide Equivalent;
    assert forall i :: 0 <= i < |a| ==> a[i] == all[i];
  }

  lemma ReducedHasFewPending(batches: seq<Batch>)
    requires WellFormedWithRepeats(batches) && FewPending(batches)
    ensures FewPending(Reduced(batches))
  {
    hide Merged, Reduced, Unanswered, StillRecent, Agree;
    ReducedShape(batches);
    forall n | 0 <= n <= |batches| ensures Waiting(Reduced(batches), n) <= MAX_PENDING_TOOL_CALLS {
      assert Waiting(batches, n) <= MAX_PENDING_TOOL_CALLS;
      ReducedPrefix(batches, n);
      ReducedShape(batches[..n]);
      MergedPrefix(batches, n);
      AgreePrefix(Merged(batches[..n]).results, Merged(batches).results);
      ReducedAnswersAlike(batches[..n]);
      SameUnanswered(Merged(batches[..n]).calls, Merged(batches[..n]).results, Merged(Reduced(batches[..n])).results);
    }
  }

  // ---- Reading at once ----

  lemma BestInFront(a: seq<ToolResult>, b: seq<ToolResult>, k: nat)
    requires k < |a| && forall r :: r in b && r.callId in Ids(a) ==> MatchedBefore(a, r)
    ensures IsBest({}, a + b, k) <==> IsBest({}, a, k)
  {
    hide Quality;
    assert forall i :: 0 <= i < |a| ==> (a + b)[i] == a[i];
    if IsBest({}, a, k) {
      forall i | |a| <= i < |a + b| && (a + b)[i].callId == a[k].callId ensures Quality((a + b)[i]) <= Quality(a[k]) {
        var r := b[i - |a|];
        assert r in b && a[k] in a;
        var t :| t in a && t.callId == r.callId && Quality(r) <= Quality(t);
        var j :| 0 <= j < |a| && a[j] == t;
      }
    }
  }

  lemma BestBehind(a: seq<ToolResult>, b: seq<ToolResult>, k: nat)
    requires k < |b| && forall r :: r in b && r.callId in Ids(a) ==> MatchedBefore(a, r)
    ensures IsBest({}, a + b, |a| + k) <==> IsBest(Ids(a), b, k)
  {
    hide Quality;
    assert b[k] in b && forall i :: 0 <= i < |b| ==> (a + b)[|a| + i] == b[i];
    if b[k].callId in Ids(a) {
      var t :| t in a && t.callId == b[k].callId && Quality(b[k]) <= Quality(t);
      var j :| 0 <= j < |a| && a[j] == t;
      assert (a + b)[j] == t;
    } else {
      assert forall i :: 0 <= i < |a| ==> a[i] in a && (a + b)[i] == a[i];
    }
  }

  lemma {:induction false} ChosenInFront(a: seq<ToolResult>, b: seq<ToolResult>, n: nat)
    requires n <= |a| && forall r :: r in b && r.callId in Ids(a) ==> MatchedBefore(a, r)
    ensures Chosen({}, a + b, n) == Chosen({}, a, n)
  {
    hide IsBest, MatchedBefore, Ids;
    if n > 0 {
      ChosenInFront(a, b, n - 1);
      BestInFront(a, b, n - 1);
    }
  }

  lemma {:induction false} ChosenBehind(a: seq<ToolResult>, b: seq<ToolResult>, n: nat)
    requires n <= |b| && forall r :: r in b && r.callId in Ids(a) ==> MatchedBefore(a, r)
    ensures Chosen({}, a + b, |a| + n) == Chosen({}, a, |a|) + Chosen(Ids(a), b, n)
  {
    hide IsBest, MatchedBefore, Ids;
    if n == 0 {
      ChosenInFront(a, b, |a|);
      NothingAdded(Chosen({}, a, |a|), Chosen({}, a, |a|));
    } else {
      ChosenBehind(a, b, n - 1);
      BestBehind(a, b, n - 1);
      Assoc(Chosen({}, a, |a|), Chosen(Ids(a), b, n - 1), [b[n - 1]]);
      NothingAdded(Chosen({}, a + b, |a| + n - 1), Chosen(Ids(a), b, n - 1));
    }
  }

  lemma PrefixHasNoBetterLater(batches: seq<Batch>)
    requires batches != [] && NoBetterLater(batches)
    ensures NoBetterLater(batches[..|batches| - 1])
    ensures forall r ::
        r in batches[|batches| - 1].results && r.callId in Ids(Merged(batches[..|batches| - 1]).results) ==>
              MatchedBefore(Merged(batches[..|batches| - 1]).results, r)
  {
    hide Merged, MatchedBefore;
    var init := batches[..|batches| - 1];
    assert forall j :: 0 <= j < |init| ==> init[j] == batches[j] && init[..j] == batches[..j];
  }

  /** Choosing the best reports poll by poll or from the whole log comes to the same. */
  lemma {:induction false} ChosenAtOnce(batches: seq<Batch>)
    requires NoBetterLater(batches)
    ensures var all := Merged(batches).results; Chosen({}, all, |all|) == Merged(Reduced(batches)).results
  {
    hide NoBetterLater, MatchedBefore, Chosen, Merged, Reduced, Ids;
    if batches == [] {
      NothingReduced();
    } else {
      var init, last := batches[..|batches| - 1], batches[|batches| - 1];
      PrefixHasNoBetterLater(batches);
      ChosenAtOnce(init);
      ReducedIs(batches);
      MergedIs(batches);
      ChosenBehind(Merged(init).results, last.results, |last.results|);
    }
  }

  lemma AtOnceReduces(batches: seq<Batch>, env: Reading)
    requires WellFormedWithRepeats(batches) && NoBetterLater(batches)
    ensures AtOnce(batches, env) == AtOnce(Reduced(batches), env)
  {
    ReducedIsWellFormed(batches);
    hide Merged, Reduced, Marked, Extract, Agree, StillRecent, NoBetterLater, UniqueCalls, UniqueResults, Fits,
         OwnPlaces, NoResultBeforeItsCall, Originals, Chosen, ResultKey;
    var all, reduced := Merged(batches), Merged(Reduced(batches));
    ReducedShape(batches);
    NobodyBefore(all.results);
    assert Ids([]) == {};
    OriginalsAreChosen([], all.results, |all.results|, env);
    TakeAll(Marked([], all.results, env), |all.results|);
    ChosenAtOnce(batches);
    MarkedIsKept([], reduced.results, env);
    ExtractOfOriginals([], all.calls, Marked([], all.results, env), env);
  }

  lemma NobodyBefore(results: seq<ToolResult>)
    ensures AgreeWith([], results)
  {
  }

  // ---- Reading in polls ----

  /** The same report, perhaps marked. */
  predicate IsReport(marked: ToolResult, r: ToolResult)
  {
    marked == r.(deduplicationKey := marked.deduplicationKey, equivalentTo := marked.equivalentTo,
                 isDuplicate := marked.isDuplicate)
  }

  predicate AreReports(marked: seq<ToolResult>, results: seq<ToolResult>)
  {
    |marked| == |results| && forall i :: 0 <= i < |results| ==> IsReport(marked[i], results[i])
  }

  lemma MarkedAreReports(prior: seq<ToolResult>, results: seq<ToolResult>, env: Reading)
    requires AllUnmarked(results)
    ensures AreReports(Marked(prior, results, env), results)
  {
    hide ResultKey, MarkFirst, Ends, NeverLower, FirstEquivalent, Equivalent, Quality, IsUnmarked;
    var links := DuplicatesReachKeptResults(prior, results, env.key);
    forall i | 0 <= i < |results| ensures IsReport(Marked(prior, results, env)[i], results[i]) {
      assert LinkHolds(prior, results, links, i);
    }
  }

  lemma NewestReports(a: seq<ToolResult>, b: seq<ToolResult>, marked: seq<ToolResult>, last: seq<ToolResult>)
    requires AreReports(a, LastN(b, MAX_RECENT_TOOL_RESULTS)) && AreReports(marked, last)
    ensures AreReports(NextRecentToolResults(a, marked), LastN(b + last, MAX_RECENT_TOOL_RESULTS))
  {
    hide IsReport;
    var n := MAX_RECENT_TOOL_RESULTS;
    LastOfLast(b, last, n);
    var short := LastN(b, n) + last;
    assert AreReports(a + marked, short);
  }

  lemma LastOfLast<T>(a: seq<T>, b: seq<T>, n: nat)
    ensures LastN(LastN(a, n) + b, n) == LastN(a + b, n)
  {
  }

  /** What the carried results say about a later report: the same as all earlier results do, if one is still carried. */
  lemma RecentTells(recent: seq<ToolResult>, before: seq<ToolResult>, last: seq<ToolResult>)
    requires AreReports(recent, LastN(before, MAX_RECENT_TOOL_RESULTS)) && Agree(before + last)
    requires forall r :: r in last && r.callId in Ids(before) ==>
        r.callId in Ids(LastN(before, MAX_RECENT_TOOL_RESULTS))
    ensures AgreeWith(recent, last)
    ensures forall r :: r in last ==> (r.callId in Ids(recent) <==> r.callId in Ids(before))
  {
    hide Equivalent, IsReport;
    var newest := LastN(before, MAX_RECENT_TOOL_RESULTS);
    forall i | 0 <= i < |recent| ensures newest[i] in before && recent[i].callId == newest[i].callId {
      ReportKeepsId(recent[i], newest[i]);
    }
    forall p, r | p in recent && r in last && p.callId == r.callId ensures Equivalent(p, r) {
      var i :| 0 <= i < |recent| && recent[i] == p;
      AgreeingReport(before + last, newest[i], p, r);
    }
    forall r | r in last ensures r.callId in Ids(recent) <==> r.callId in Ids(before) {
      if r.callId in Ids(recent) {
        var p :| p in recent && p.callId == r.callId;
        var i :| 0 <= i < |recent| && recent[i] == p;
        assert newest[i] in before;
      }
      if r.callId in Ids(before) {
        var s :| s in newest && s.callId == r.callId;
        var i :| 0 <= i < |newest| && newest[i] == s;
        assert recent[i] in recent;
      }
    }
  }

  lemma ReportKeepsId(marked: ToolResult, r: ToolResult)
    ensures IsReport(marked, r) ==> marked.callId == r.callId
  {
  }

  lemma AgreeingReport(all: seq<ToolResult>, s: ToolResult, marked: ToolResult, r: ToolResult)
    requires Agree(all) && s in all && r in all && IsReport(marked, s) && s.callId == r.callId
    ensures Equivalent(marked, r)
  {
    var i :| 0 <= i < |all| && all[i] == s;
    var j :| 0 <= j < |all| && all[j] == r;
    assert Equivalent(all[i], all[j]);
  }

  lemma {:induction false} ChosenAlike(a: set<Option<string>>, b: set<Option<string>>, rs: seq<ToolResult>, n: nat)
    requires n <= |rs| && forall r :: r in rs ==> (r.callId in a <==> r.callId in b)
    ensures Chosen(a, rs, n) == Chosen(b, rs, n)
  {
    hide IsBestBefore;
    if n > 0 {
      ChosenAlike(a, b, rs, n - 1);
      assert rs[n - 1] in rs;
    }
  }

  /** What holds of both readings after the same polls. */
  ghost predicate InStep(batches: seq<Batch>, env: Reading)
  {
    var live, reduced := AllPolls(batches, env), AllPolls(Reduced(batches), env);
    && live.pending == reduced.pending && live.stored == reduced.stored
    && AreReports(live.recent, LastN(Merged(batches).results, MAX_RECENT_TOOL_RESULTS))
  }

  lemma PollReduces(live: Live, other: Live, batch: Batch, reduced: Batch, env: Reading)
    requires live.pending == other.pending && live.stored == other.stored && batch.calls == reduced.calls
    requires Originals(Marked(live.recent, batch.results, env)) == Marked(other.recent, reduced.results, env)
    requires var calls := live.pending + batch.calls;
             Unanswered(calls, Marked(live.recent, batch.results, env)) ==
             Unanswered(calls, Marked(other.recent, reduced.results, env))
    ensures Poll(live, batch, env).pending == Poll(other, reduced, env).pending
    ensures Poll(live, batch, env).stored == Poll(other, reduced, env).stored
  {
    hide Marked, Originals, Unanswered, Extract;
    ExtractOfOriginals(live.pending, batch.calls, Marked(live.recent, batch.results, env), env);
  }

  lemma PrefixWithRepeats(batches: seq<Batch>)
    requires batches != [] && WellFormedWithRepeats(batches)
    ensures WellFormedWithRepeats(batches[..|batches| - 1])
    ensures var before, last := Merged(batches[..|batches| - 1]), batches[|batches| - 1];
            && Agree(before.results + last.results) && Agree(last.results) && AllUnmarked(last.results)
            && (forall c, r :: c in last.calls && r in before.results ==> c.callId != r.callId)
            && forall r :: r in last.results && r.callId in Ids(before.results) ==>
                 r.callId in Ids(LastN(before.results, MAX_RECENT_TOOL_RESULTS))
  {
    hide Merged, MatchedBefore, Equivalent, IsUnmarked, Ids, LastN;
    var n := |batches| - 1;
    var init, last := batches[..n], batches[n];
    var all := Merged(init);
    MergedIs(batches);
    MergedMembers(init);
    assert forall i :: 0 <= i < n ==> init[i] == batches[i] && init[..i] == batches[..i];
    PartsWithRepeats(all, last);
    hide Fits, OwnPlaces, UniqueCalls, Agree, AllUnmarked;
    forall c, r | c in last.calls && r in all.results ensures c.callId != r.callId {
      var i :| 0 <= i < n && r in init[i].results;
      assert r in batches[i].results && c in batches[n].calls;
    }
  }

  lemma AgreeParts(a: seq<ToolResult>, b: seq<ToolResult>)
    requires Agree(a + b)
    ensures Agree(a) && Agree(b)
  {
    hide Equivalent;
    assert forall i :: 0 <= i < |a| ==> a[i] == (a + b)[i];
    assert forall i :: 0 <= i < |b| ==> b[i] == (a + b)[|a| + i];
  }

  lemma UnmarkedParts(a: seq<ToolResult>, b: seq<ToolResult>)
    requires AllUnmarked(a + b)
    ensures AllUnmarked(a) && AllUnmarked(b)
  {
    hide IsUnmarked;
    assert forall i :: 0 <= i < |a| ==> a[i] == (a + b)[i];
    assert forall i :: 0 <= i < |b| ==> b[i] == (a + b)[|a| + i];
  }

  lemma PartsWithRepeats(a: Batch, b: Batch)
    requires var calls, results := a.calls + b.calls, a.results + b.results;
             && UniqueCalls(calls) && Agree(results) && AllUnmarked(results)
             && Fits(calls, results) && OwnPlaces(calls, results)
    ensures UniqueCalls(a.calls) && Agree(a.results) && AllUnmarked(a.results)
    ensures Fits(a.calls, a.results) && OwnPlaces(a.calls, a.results)
    ensures Agree(b.results) && AllUnmarked(b.results)
  {
    PrefixesAreUnique(a.calls, b.calls);
    AgreeParts(a.results, b.results);
    UnmarkedParts(a.results, b.results);
    hide Agree, AllUnmarked, UniqueCalls;
    var calls, results := a.calls + b.calls, a.results + b.results;
    assert forall i :: 0 <= i < |a.calls| ==> a.calls[i] == calls[i];
    assert forall c :: c in a.calls ==> c in calls;
    assert forall r :: r in a.results ==> r in results;
  }

  lemma AnsweredAlike(marked: seq<ToolResult>, results: seq<ToolResult>, c: ToolCall)
    requires AreReports(marked, results)
    ensures IsAnswered(c, marked) <==> IsAnswered(c, results)
  {
    hide Answers, IsReport;
    forall i | 0 <= i < |results| ensures Answers(marked[i], c) == Answers(results[i], c) {
      ReportAnswersAlike(marked[i], results[i], c);
    }
    if IsAnswered(c, marked) {
      var m :| m in marked && Answers(m, c);
      var i :| 0 <= i < |marked| && marked[i] == m;
      assert results[i] in results;
    }
    if IsAnswered(c, results) {
      var r :| r in results && Answers(r, c);
      var i :| 0 <= i < |results| && results[i] == r;
      assert marked[i] in marked;
    }
  }

  lemma KeptAreReports(results: seq<ToolResult>, env: Reading)
    ensures AreReports(AllKept(results, env), results)
  {
    hide ResultKey;
  }

  /** Of the calls that wait or are new, a poll's reports answer those that the chosen reports answer. */
  lemma ChosenAnswerAlike(before: seq<ToolResult>, known: seq<ToolResult>, last: seq<ToolResult>, c: ToolCall)
    requires Agree(before + last)
    requires forall s :: s in before ==> ReportedIn(known, s.callId)
    requires forall r :: r in known ==> r in before && !Answers(r, c)
    ensures IsAnswered(c, last) <==> IsAnswered(c, Chosen(Ids(before), last, |last|))
  {
    hide Answers, Agree, ReportedIn, Ids, Chosen;
    ChosenFromGiven(Ids(before), last);
    if IsAnswered(c, last) {
      var r :| r in last && Answers(r, c);
      var i :| 0 <= i < |last| && last[i] == r;
      var k := AnsweringBest(before, known, last, i, c);
    }
  }

  lemma ReportAnswersAlike(marked: ToolResult, r: ToolResult, c: ToolCall)
    ensures IsReport(marked, r) ==> Answers(marked, c) == Answers(r, c)
  {
  }

  lemma AnsweringBest(before: seq<ToolResult>, known: seq<ToolResult>, last: seq<ToolResult>, i: nat, c: ToolCall)
    returns (k: nat)
    requires Agree(before + last) && i < |last| && Answers(last[i], c)
    requires forall s :: s in before ==> ReportedIn(known, s.callId)
    requires forall r :: r in known ==> r in before && !Answers(r, c)
    ensures k < |last| && last[k] in Chosen(Ids(before), last, |last|) && Answers(last[k], c)
  {
    hide Answers, Agree, Equivalent, Chosen;
    ChosenMembers(Ids(before), last, |last|);
    assert last[i] in before + last && forall r :: r in known ==> r in before + last;
    k := BestExists(last, |last|, last[i].callId);
    assert last[k] in before + last;
    AgreeingAnswer(before + last, last[i], last[k], c);
    forall s | s in before ensures s.callId != last[i].callId {
      if s.callId == last[i].callId {
        var r :| r in known && r.callId == s.callId;
        AgreeingAnswer(before + last, last[i], r, c);
      }
    }
  }

  /** The next poll answers the same calls, whichever of its reports are looked at. */
  lemma SameAnswersNext(batches: seq<Batch>, calls: seq<ToolCall>, marked: seq<ToolResult>, env: Reading)
    requires batches != [] && WellFormedWithRepeats(batches)
    requires var reduced := Merged(Reduced(batches[..|batches| - 1]));
             calls == Unanswered(reduced.calls, AllKept(reduced.results, env)) + batches[|batches| - 1].calls
    requires AreReports(marked, batches[|batches| - 1].results)
    ensures var (before, last) := (Merged(batches[..|batches| - 1]), batches[|batches| - 1]);
            Unanswered(calls, marked) == Unanswered(calls, AllKept(ReducedNext(before, last).results, env))
  {
    hide ResultKey, WellFormedWithRepeats, Answers, Agree, Merged, Reduced, Unanswered, AllKept;
    var init, last := batches[..|batches| - 1], batches[|batches| - 1];
    var before, reduced := Merged(init), Merged(Reduced(init));
    PrefixWithRepeats(batches);
    ReducedShape(init);
    AgreeParts(before.results, last.results);
    IdsAreGiven(before.results);
    assert forall r :: r in before.results ==> r.callId.Some?;
    ReducedIsUnique(init);
    var chosen := Chosen(Ids(before.results), last.results, |last.results|);
    UnansweredKept(reduced.calls, reduced.results, env);
    KeptAreReports(chosen, env);
    hide Chosen, AreReports;
    forall c | c in calls ensures IsAnswered(c, marked) <==> IsAnswered(c, AllKept(chosen, env)) {
      StillWaiting(reduced.calls, reduced.results, last.calls, before.results, c);
      ChosenAnswerAlike(before.results, reduced.results, last.results, c);
      AnsweredAlike(marked, last.results, c);
      AnsweredAlike(AllKept(chosen, env), chosen, c);
    }
    SameUnanswered(calls, marked, AllKept(chosen, env));
  }

  lemma StillWaiting(calls: seq<ToolCall>, results: seq<ToolResult>, next: seq<ToolCall>, before: seq<ToolResult>,
                     c: ToolCall)
    requires c in Unanswered(calls, results) + next
    requires forall r :: r in results ==> r in before
    requires forall c, r :: c in next && r in before ==> c.callId != r.callId
    ensures forall r :: r in results ==> !Answers(r, c)
  {
    if c in Unanswered(calls, results) {
      UnansweredIsNotAnswered(calls, results, c);
    }
  }

  lemma {:induction false} UnansweredIsNotAnswered(calls: seq<ToolCall>, results: seq<ToolResult>, c: ToolCall)
    requires c in Unanswered(calls, results)
    ensures forall r :: r in results ==> !Answers(r, c)
  {
    hide Answers;
    if c in Unanswered(calls[..|calls| - 1], results) {
      UnansweredIsNotAnswered(calls[..|calls| - 1], results, c);
    }
  }

  /** Poll by poll, the log and its reduction leave the same pending calls and the same operations. */
  lemma {:induction false} PollsReduce(batches: seq<Batch>, env: Reading)
    requires WellFormedWithRepeats(batches) && FewPending(batches)
    ensures InStep(batches, env)
  {
    hide ResultKey, WellFormedWithRepeats, WellFormed, FewPending, Merged, Reduced, AllPolls, Poll, Marked, Unanswered,
         Agree, AgreeWith, Ids, AllUnmarked, AreReports, LastN, Explained, Originals, AllKept, Chosen, ReducedNext;
    if batches == [] {
      NothingInStep(env);
    } else {
      var init, last := batches[..|batches| - 1], batches[|batches| - 1];
      PrefixWithRepeats(batches);
      PrefixHasFewPending(batches);
      PollsReduce(init, env);
      InStepNext(batches, env);
    }
  }

  lemma NothingInStep(env: Reading)
    ensures InStep([], env)
  {
  }

  lemma AllPollsNext(batches: seq<Batch>, env: Reading)
    requires batches != []
    ensures AllPolls(batches, env) == Poll(AllPolls(batches[..|batches| - 1], env), batches[|batches| - 1], env)
  {
  }

  lemma InStepNext(batches: seq<Batch>, env: Reading)
    requires batches != [] && WellFormedWithRepeats(batches) && FewPending(batches)
    requires InStep(batches[..|batches| - 1], env)
    ensures InStep(batches, env)
  {
    hide ResultKey, WellFormedWithRepeats, WellFormed, FewPending, Merged, Reduced, AllPolls, Marked, Unanswered,
         Extract, Agree, AgreeWith, Ids, AllUnmarked, AreReports, LastN, Originals, AllKept, Chosen, UniqueResults,
         LateKnown, InStore;
    var init, last := batches[..|batches| - 1], batches[|batches| - 1];
    var before, live := Merged(init), AllPolls(init, env);
    var reduced, other, next := Merged(Reduced(init)), AllPolls(Reduced(init), env), ReducedNext(before, last);
    PrefixWithRepeats(batches);
    PrefixHasFewPending(batches);
    ReducedIs(batches);
    ReducedShape(batches);
    MergedIs(batches);
    ReducedIsWellFormed(init);
    ReducedHasFewPending(init);
    RunIsExplained(Reduced(init), env);
    ReducedIsWellFormed(batches);
    NextIsKept(batches, other.recent, env);
    RecentTells(live.recent, before.results, last.results);
    AsGiven(last.results);
    OriginalsAreChosen(live.recent, last.results, |last.results|, env);
    TakeAll(Marked(live.recent, last.results, env), |last.results|);
    ChosenAlike(Ids(live.recent), Ids(before.results), last.results, |last.results|);
    MarkedAreReports(live.recent, last.results, env);
    SameAnswersNext(batches, live.pending + last.calls, Marked(live.recent, last.results, env), env);
    PollReduces(live, other, last, next, env);
    NewestReports(live.recent, before.results, Marked(live.recent, last.results, env), last.results);
    AllPollsNext(batches, env);
    AllPollsNext(Reduced(batches), env);
  }

  lemma AsGiven(results: seq<ToolResult>)
    requires AllUnmarked(results)
    ensures forall i :: 0 <= i < |results| ==> IsUnmarked(results[i])
  {
  }

  /** In the reduced log the next results are never marked. */
  lemma NextIsKept(batches: seq<Batch>, recent: seq<ToolResult>, env: Reading)
    requires batches != [] && WellFormed(Reduced(batches))
    requires forall r :: r in recent ==> r in AllKept(Merged(Reduced(batches[..|batches| - 1])).results, env)
    ensures var next := ReducedNext(Merged(batches[..|batches| - 1]), batches[|batches| - 1]);
            Marked(recent, next.results, env) == AllKept(next.results, env)
  {
    hide ResultKey, Merged, Reduced, Marked, AllKept, Fits, OwnPlaces, UniqueCalls, NoResultBeforeItsCall, Chosen, Ids;
    ReducedIs(batches);
    var before, next :=
        Merged(Reduced(batches[..|batches| - 1])),
        ReducedNext(Merged(batches[..|batches| - 1]), batches[|batches| - 1]);
    LastIsUnmarked(before, next);
    MarkedNext(before, next, recent, env);
  }

  /**
   * A call may be reported any number of times, within a poll or across polls, as long as the reports do not contradict
   * each other, a later poll brings none better than the best so far, and an earlier one is still carried along: then
   * polls and one batch leave the same operations if and only if, going by the best reports, no call recovers late.
   */
  lemma PollsEqualBatchWithRepeatsIff(batches: seq<Batch>, env: Reading)
    requires WellFormedWithRepeats(batches) && NoBetterLater(batches) && FewPending(batches)
    ensures AllPolls(batches, env).stored == AtOnce(batches, env) <==>
            !exists i, j, c, r :: RecoversLate(Reduced(batches), i, j, c, r, env)
  {
    hide WellFormedWithRepeats, WellFormed, FewPending, Merged, Reduced, AllPolls, AtOnce, RecoversLate;
    PollsReduce(batches, env);
    AtOnceReduces(batches, env);
    ReducedIsWellFormed(batches);
    ReducedHasFewPending(batches);
    PollsEqualBatchIff(Reduced(batches), env);
  }

  // ---- Logs with one report per call are a special case ----

  lemma EquivalentToItself(r: ToolResult)
    ensures r.callId.Some? ==> Equivalent(r, r)
  {
  }

  lemma UniqueReportsAgree(results: seq<ToolResult>)
    requires UniqueResults(results)
    ensures Agree(results)
  {
    hide Equivalent;
    forall i, j | 0 <= i < |results| && 0 <= j < |results| && results[i].callId == results[j].callId
      ensures Equivalent(results[i], results[j])
    {
      assert i == j;
      EquivalentToItself(results[i]);
    }
  }

  lemma {:induction false} UniqueReportsAreChosen(known: set<Option<string>>, rs: seq<ToolResult>, n: nat)
    requires n <= |rs| && UniqueResults(rs) && forall r :: r in rs ==> r.callId !in known
    ensures Chosen(known, rs, n) == rs[..n]
  {
    hide Quality;
    if n > 0 {
      UniqueReportsAreChosen(known, rs, n - 1);
      assert rs[n - 1] in rs && IsBest(known, rs, n - 1) by {
        forall i | 0 <= i < |rs| && i != n - 1 ensures rs[i].callId != rs[n - 1].callId {
        }
      }
    }
  }

  lemma NotAmongEarlier(batches: seq<Batch>)
    requires batches != [] && UniqueResults(Merged(batches).results)
    ensures var before, last := Merged(batches[..|batches| - 1]), batches[|batches| - 1];
            && UniqueResults(before.results) && UniqueResults(last.results)
            && forall r :: r in last.results ==> r.callId !in Ids(before.results)
  {
    hide Merged, UniqueResults;
    MergedIs(batches);
    SuffixesAreUnique(Merged(batches[..|batches| - 1]).results, batches[|batches| - 1].results);
  }

  lemma {:induction false} UniqueReportsReduceToThemselves(batches: seq<Batch>)
    requires UniqueResults(Merged(batches).results)
    ensures Reduced(batches) == batches
  {
    hide Chosen, UniqueResults, Merged, Ids;
    if batches != [] {
      var init, last := batches[..|batches| - 1], batches[|batches| - 1];
      NotAmongEarlier(batches);
      UniqueReportsReduceToThemselves(init);
      UniqueReportsAreChosen(Ids(Merged(init).results), last.results, |last.results|);
      TakeAll(last.results, |last.results|);
      assert batches == init + [last];
    }
  }

  lemma {:induction false} UniqueReportsComeOnce(batches: seq<Batch>)
    requires UniqueResults(Merged(batches).results)
    ensures forall j, r :: 0 <= j < |batches| && r in batches[j].results ==>
        r.callId !in Ids(Merged(batches[..j]).results)
  {
    hide UniqueResults, Merged, Ids;
    if batches != [] {
      var init := batches[..|batches| - 1];
      NotAmongEarlier(batches);
      UniqueReportsComeOnce(init);
      assert forall j :: 0 <= j < |init| ==> init[j] == batches[j] && init[..j] == batches[..j];
    }
  }

  /** With at most one result per call nothing is reduced, so the theorem above extends the one for such logs. */
  lemma WellFormedNeedsNoReduction(batches: seq<Batch>)
    requires WellFormed(batches)
    ensures WellFormedWithRepeats(batches) && NoBetterLater(batches) && Reduced(batches) == batches
  {
    hide Merged, Reduced, UniqueCalls, UniqueResults, Fits, OwnPlaces, AllUnmarked, NoResultBeforeItsCall, Agree,
         MatchedBefore;
    UniqueReportsAgree(Merged(batches).results);
    UniqueReportsReduceToThemselves(batches);
    UniqueReportsComeOnce(batches);
  }

  // ---- A better report in a later poll ----

  lemma MergedOne(b: Batch)
    ensures Merged([b]) == b && Merged([]) == Batch([], [])
  {
    assert [b][..0] == [] && [] + b.calls == b.calls && [] + b.results == b.results;
  }

  lemma OneReport(c: ToolCall, r: ToolResult)
    requires c.callId.Some? && r.callId == c.callId && ContextsCompatible(c, r) && c.provenance != r.provenance
        && IsUnmarked(r)
    ensures WellFormed([Batch([c], [r])]) && FewPending([Batch([c], [r])])
  {
    hide Unanswered, ContextsCompatible, IsUnmarked;
    var batches := [Batch([c], [r])];
    MergedOne(batches[0]);
    hide Merged;
    forall n | 0 <= n <= 1 ensures |Unanswered(Merged(batches[..n]).calls, Merged(batches[..n]).results)| <= 1 {
      assert batches[..0] == [] && batches[..1] == batches;
      UnansweredIsShorter(Merged(batches[..n]).calls, Merged(batches[..n]).results);
    }
  }

  lemma BetterOfTwoReports(r: ToolResult, better: ToolResult)
    requires Quality(r) < Quality(better) && r.callId == better.callId
    ensures Chosen({}, [r, better], 2) == [better]
  {
    hide Quality;
    var rs := [r, better];
    assert !IsBest({}, rs, 0) && IsBest({}, rs, 1);
    assert Chosen({}, rs, 0) == [] && Chosen({}, rs, 1) == [];
  }

  lemma OnlyReport(c: ToolCall, r: ToolResult, env: Reading)
    requires r.callId == c.callId && ContextsCompatible(c, r)
    ensures AllKept([r], env) == [KeptForm(r, env)]
    ensures FindResult(AllKept([r], env), c.callId) == Some(KeptForm(r, env))
    ensures Unanswered([c], AllKept([r], env)) == []
  {
    hide ResultKey, ContextsCompatible;
    var kept := AllKept([r], env);
    assert kept == [KeptForm(r, env)] && kept[0] in kept;
    ReportAnswersAlike(kept[0], r, c);
    assert Answers(kept[0], c);
    assert [c][..0] == [] && Unanswered([], kept) == [];
  }

  /** One poll: the call is kept, answered, and its report carried along. */
  lemma AfterFirstReport(c: ToolCall, r: ToolResult, env: Reading, op: Operation)
    requires c.callId.Some? && r.callId == c.callId && ContextsCompatible(c, r) && c.provenance != r.provenance
        && IsUnmarked(r)
    requires op in CallOps(c) && !FailedWith(c, Some(r), env)
    ensures var live := AllPolls([Batch([c], [r])], env);
            op in live.stored && live.pending == [] && live.recent == [KeptForm(r, env)]
  {
    hide ResultKey, CallOps, FailedWith, ContextsCompatible, Extract, Marked, WellFormed, FewPending, InStore,
         LateKnown, AllPolls, LateIds, Unanswered, AllKept, FindResult;
    var batch := Batch([c], [r]);
    OneReport(c, r);
    RunIsExplained([batch], env);
    MergedOne(batch);
    OnlyReport(c, r, env);
    FirstPollCarries(batch, env);
    Gives(c, AllKept([r], env), r, env, op);
    FirstPollGives(c, r, env, op);
  }

  lemma FirstPollCarries(batch: Batch, env: Reading)
    requires UniqueResults(batch.results) && AllUnmarked(batch.results) && |batch.results| <= 1
    ensures AllPolls([batch], env).recent == AllKept(batch.results, env)
  {
    hide ResultKey, Extract, MarkAll;
    MarkedIsKept([], batch.results, env);
    assert [batch][..0] == [] && AllPolls([], env) == Live([], [], {});
    assert [] + AllKept(batch.results, env) == AllKept(batch.results, env);
  }

  lemma FirstPollGives(c: ToolCall, r: ToolResult, env: Reading, op: Operation)
    ensures CallGives(c, AllKept([r], env), env, op) ==>
              InStore([c], AllKept([r], env), LateIds([Batch([c], [r])], env), env, op)
  {
    hide ResultKey, CallOps, FailedWith, FindResult, AllKept;
    var batches := [Batch([c], [r])];
    assert batches[..0] == [];
    assert LateIds(batches, env) == {};
    assert c in [c];
    if CallGives(c, AllKept([r], env), env, op) {
      assert GivesLive(c, AllKept([r], env), LateIds(batches, env), env, op);
    }
  }

  lemma RepeatIsDuplicate(first: ToolResult, r: ToolResult, env: Reading)
    requires Equivalent(first, r) && IsUnmarked(r)
    ensures Originals(Marked([KeptForm(first, env)], [r], env)) == []
  {
    hide ResultKey, MarkAll;
    var prior := [KeptForm(first, env)];
    assert KeptForm(first, env) in prior;
    MarksDoNotMatter(first, KeptForm(first, env), env.key);
    EquivalentIsSymmetric(first, r);
    assert Agree([r]) && AgreeWith(prior, [r]);
    hide Equivalent, Originals;
    OriginalsAreChosen(prior, [r], 1, env);
    TakeAll(Marked(prior, [r], env), 1);
    assert Chosen(Ids(prior), [r], 0) == [] && Chosen(Ids(prior), [r], 1) == [];
  }

  /**
   * A first report that leaves the call standing, and one poll later a better one that fails it: the polls keep its
   * operations.
   */
  lemma BetterReportComesTooLate(c: ToolCall, r: ToolResult, better: ToolResult, env: Reading)
    requires c.callId.Some? && c.sessionId.Some? && c.targets != []
    requires r.callId == c.callId && ContextsCompatible(c, r) && ContextsCompatible(c, better)
    requires c.provenance != r.provenance && c.provenance != better.provenance && IsUnmarked(r) && IsUnmarked(better)
    requires Equivalent(r, better) && Quality(r) < Quality(better)
    requires !FailedWith(c, Some(r), env) && FailedWith(c, Some(better), env)
    ensures var batches := [Batch([c], [r]), Batch([], [better])];
            AllPolls(batches, env).stored != AtOnce(batches, env)
  {
    hide CallOps, FailedWith, ContextsCompatible, ResultKey, Extract, MarkAll, Originals, Quality, IsUnmarked, Chosen,
         Equivalent;
    var op := LostIsGiven(c);
    EquivalentNeedsSameId(r, better);
    StoredByPolls(c, r, better, env, op);
    NotStoredAtOnce(c, r, better, env, op);
  }

  lemma StoredByPolls(c: ToolCall, r: ToolResult, better: ToolResult, env: Reading, op: Operation)
    requires c.callId.Some? && r.callId == c.callId && ContextsCompatible(c, r) && c.provenance != r.provenance
    requires IsUnmarked(r) && IsUnmarked(better) && Equivalent(r, better)
    requires op in CallOps(c) && !FailedWith(c, Some(r), env)
    ensures op in AllPolls([Batch([c], [r]), Batch([], [better])], env).stored
  {
    hide CallOps, FailedWith, ContextsCompatible, ResultKey, Extract, Marked, Originals, IsUnmarked, Equivalent;
    var batches := [Batch([c], [r]), Batch([], [better])];
    AfterFirstReport(c, r, env, op);
    RepeatIsDuplicate(r, better, env);
    var marked := Marked([KeptForm(r, env)], [better], env);
    ExtractOfOriginals([], [], marked, env);
    NothingToExtract(env);
    assert batches[..1] == [batches[0]];
    AllPollsNext(batches, env);
  }

  lemma NothingToExtract(env: Reading)
    ensures Extract([], [], [], env).invalidated == []
  {
  }

  lemma NotStoredAtOnce(c: ToolCall, r: ToolResult, better: ToolResult, env: Reading, op: Operation)
    requires c.callId.Some? && r.callId == c.callId == better.callId && ContextsCompatible(c, better)
    requires c.provenance != better.provenance && IsUnmarked(r) && IsUnmarked(better)
    requires Equivalent(r, better) && Quality(r) < Quality(better)
    requires op in CallOps(c) && FailedWith(c, Some(better), env)
    ensures op !in AtOnce([Batch([c], [r]), Batch([], [better])], env)
  {
    hide CallOps, FailedWith, ContextsCompatible, ResultKey, Extract, Marked, Originals, Quality, IsUnmarked,
         WellFormed, Merged, Equivalent;
    var batches := [Batch([c], [r]), Batch([], [better])];
    MergedOfTwo(batches);
    assert [c] + [] == [c] && [r] + [better] == [r, better];
    OriginalOfTwo(r, better, env);
    ExtractOfOriginals([], [c], Marked([], [r, better], env), env);
    OneReport(c, better);
    MergedOne(Batch([c], [better]));
    MarkedIsKept([], [better], env);
    AtOnceIs([Batch([c], [better])], env, op);
    FailedCallGivesNothing(c, better, env, op);
  }

  lemma OriginalOfTwo(r: ToolResult, better: ToolResult, env: Reading)
    requires Equivalent(r, better) && Quality(r) < Quality(better) && IsUnmarked(r) && IsUnmarked(better)
    ensures Originals(Marked([], [r, better], env)) == AllKept([better], env)
  {
    EquivalentIsSymmetric(r, better);
    EquivalentNeedsSameId(r, better);
    TwoReportsAgree(r, better);
    BetterOfTwoReports(r, better);
    NobodyBefore([r, better]);
    hide ResultKey, Marked, Originals, Quality, IsUnmarked, Chosen, Equivalent, Agree, AgreeWith;
    assert Ids([]) == {};
    OriginalsAreChosen([], [r, better], 2, env);
    TakeAll(Marked([], [r, better], env), 2);
  }

  lemma TwoReportsAgree(r: ToolResult, s: ToolResult)
    requires Equivalent(r, s) && Equivalent(s, r)
    ensures Agree([r, s])
  {
  }

  lemma FailedCallGivesNothing(c: ToolCall, r: ToolResult, env: Reading, op: Operation)
    requires r.callId == c.callId && c.provenance != r.provenance && op in CallOps(c) && FailedWith(c, Some(r), env)
    ensures !InBatch([c], AllKept([r], env), env, op)
  {
    hide CallOps, FailedWith, ResultKey, ResultOps, Skips;
    var kept := AllKept([r], env);
    assert kept == [KeptForm(r, env)] && FindResult(kept, c.callId) == Some(KeptForm(r, env));
    KeptFailsAlike(c, r, env);
    CallOpsHaveItsPlace(c, op);
    ResultOpsHaveItsPlace(KeptForm(r, env), FindCall([c], r.callId), env, op);
  }

  /** Such reports: output without a verdict, and one poll later the exit code 1. */
  lemma BetterReportLaterHappens()
    ensures exists batches, env :: |batches| == 2 && AllPolls(batches, env).stored != AtOnce(batches, env)
                                   && !exists i, j, c, r :: RecoversLate(batches, i, j, c, r, env)
  {
    hide AllPolls, AtOnce;
    var env := Reading(s => false, (r, m) => [], parts => "");
    var c := ToolCall(Some("1"), Some("s"), None, None, [Target("a.txt", "/a.txt", "edit")], Provenance("log", 1));
    var r := ToolResult(Some("1"), Some("s"), None, None, None, None, None, None, None, None, Unknown, FromNowhere,
                        None, None, false, Provenance("log", 2));
    var better := r.(exitCode := Some(1), outcome := Failed, outcomeSource := FromExitCode,
        provenance := Provenance("log", 3));
    BetterReportComesTooLate(c, r, better, env);
  }
}
