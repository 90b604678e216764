/** When a tool call counts as failed, told by the results that report on it, src/normalize.rs. */
module CallFailures {
  import opened Wrappers
  import opened Correlation
  import opened FileOperations

  // ---- Which results report on a call ----

  /** A result of the call's own id, or of none, in a context that does not contradict the call's. */
  ghost predicate Reports(calls: seq<ToolCall>, c: ToolCall, r: ToolResult)
  {
    && !r.isDuplicate && r.callId == c.callId && !Contradict(r.sessionId, c.sessionId)
    && !Contradict(r.turnId, c.turnId)
    && (c.callId.None? || exists d :: IsMatch(calls, r, Some(d)) && IsTheCall(d, c))
  }

  predicate IsTheCall(d: ToolCall, c: ToolCall)
  {
    d.callId == c.callId && d.sessionId == c.sessionId && d.turnId == c.turnId && d.provenance == c.provenance
  }

  predicate OwnContext(r: ToolResult, c: ToolCall)
  {
    r.sessionId == c.sessionId && r.turnId == c.turnId
  }

  ghost predicate SharesContext(d: ToolCall, c: ToolCall)
  {
    d.callId.None? && d.sessionId == c.sessionId && d.turnId == c.turnId
  }

  /** One call without an id is in that context. */
  ghost predicate IsAlone(calls: seq<ToolCall>, c: ToolCall)
  {
    exists i: nat :: i < |calls| && SharesContext(calls[i], c)
      && forall j: nat :: j < |calls| && j != i ==> !SharesContext(calls[j], c)
  }

  /** The results in the call's own context; where there is none, the only one that agrees with it. */
  ghost predicate Counts(results: seq<ToolResult>, calls: seq<ToolCall>, c: ToolCall, k: nat)
  {
    && k < |results| && Reports(calls, c, results[k]) && (c.callId.Some? || IsAlone(calls, c))
    && (|| OwnContext(results[k], c)
        || forall j: nat :: j < |results| && j != k ==> !Reports(calls, c, results[j]))
  }

  // ---- The matched results are those ----

  lemma ReportsIs(calls: seq<ToolCall>, c: ToolCall, r: ToolResult)
    ensures BelongsTo(r, calls, c) <==> Reports(calls, c, r)
  {
    hide IsMatch, MatchingCall;
    MatchingCallIs(calls, r);
    forall d | IsMatch(calls, r, Some(d)) ensures MatchingCall(calls, r) == Some(d) {
      IsMatchUnique(calls, r, Some(d), MatchingCall(calls, r));
    }
  }

  lemma {:induction false} CandidatesAre(results: seq<ToolResult>, calls: seq<ToolCall>, c: ToolCall)
    returns (at: seq<nat>)
    ensures |at| == |CandidateResults(results, calls, c)|
    ensures forall i :: 0 <= i < |at| ==>
              at[i] < |results| && results[at[i]] == CandidateResults(results, calls, c)[i]
              && BelongsTo(results[at[i]], calls, c)
    ensures forall i, j :: 0 <= i < j < |at| ==> at[i] < at[j]
    ensures forall k :: 0 <= k < |results| && BelongsTo(results[k], calls, c) ==> k in at
  {
    hide BelongsTo;
    at := [];
    if results != [] {
      var n := |results| - 1;
      at := CandidatesAre(results[..n], calls, c);
      if BelongsTo(results[n], calls, c) {
        at := at + [n];
      }
    }
  }

  lemma {:induction false} ExactAre(results: seq<ToolResult>, c: ToolCall)
    ensures forall r :: r in ExactResults(results, c) <==> r in results && IsExact(c, r)
  {
    hide IsExact;
    if results != [] {
      var n := |results| - 1;
      ExactAre(results[..n], c);
      assert results == results[..n] + [results[n]];
    }
  }

  lemma {:induction false} CountIsPositive(calls: seq<ToolCall>, c: ToolCall)
    ensures CountUnidentified(calls, c) == 0 <==> forall i :: 0 <= i < |calls| ==> !SharesContext(calls[i], c)
  {
    hide SharesContext;
    if calls != [] {
      var n := |calls| - 1;
      CountIsPositive(calls[..n], c);
      CountsOne(calls[n], c);
    }
  }

  lemma CountsOne(d: ToolCall, c: ToolCall)
    ensures d.callId.None? && SameContext(d.sessionId, c.sessionId) && SameContext(d.turnId, c.turnId) <==>
            SharesContext(d, c)
  {
  }

  lemma {:induction false} AloneIs(calls: seq<ToolCall>, c: ToolCall)
    ensures CountUnidentified(calls, c) == 1 <==> IsAlone(calls, c)
  {
    if calls != [] {
      var n := |calls| - 1;
      AloneIs(calls[..n], c);
      CountIsPositive(calls[..n], c);
      CountsOne(calls[n], c);
      AloneNext(calls[..n], calls[n], c);
      assert calls == calls[..n] + [calls[n]];
    }
  }

  lemma AloneNext(calls: seq<ToolCall>, d: ToolCall, c: ToolCall)
    ensures IsAlone(calls + [d], c) <==>
            if SharesContext(d, c) then forall i :: 0 <= i < |calls| ==> !SharesContext(calls[i], c)
            else IsAlone(calls, c)
  {
    hide SharesContext;
    var more := calls + [d];
    assert more[|calls|] == d && forall i :: 0 <= i < |calls| ==> more[i] == calls[i];
    if IsAlone(more, c) {
      var i: nat :| i < |more| && SharesContext(more[i], c)
                    && forall j: nat :: j < |more| && j != i ==> !SharesContext(more[j], c);
      if i < |calls| {
        assert SharesContext(calls[i], c);
        assert !SharesContext(more[|calls|], c);
        forall j: nat | j < |calls| && j != i ensures !SharesContext(calls[j], c) {
          assert !SharesContext(more[j], c);
        }
      } else {
        forall j | 0 <= j < |calls| ensures !SharesContext(calls[j], c) {
          assert !SharesContext(more[j], c);
        }
      }
    }
    if !SharesContext(d, c) && IsAlone(calls, c) {
      var i: nat :| i < |calls| && SharesContext(calls[i], c)
                    && forall j: nat :: j < |calls| && j != i ==> !SharesContext(calls[j], c);
      assert SharesContext(more[i], c);
    }
    if SharesContext(d, c) && forall i :: 0 <= i < |calls| ==> !SharesContext(calls[i], c) {
      assert SharesContext(more[|calls|], c);
    }
  }

  lemma MatchedAre(results: seq<ToolResult>, calls: seq<ToolCall>, c: ToolCall)
    ensures forall r :: r in MatchingResults(results, calls, c) <==>
              exists k: nat :: Counts(results, calls, c, k) && results[k] == r
  {
    hide Reports, IsAlone, CandidateResults, ExactResults, CountUnidentified, BelongsTo;
    AloneIs(calls, c);
    var at := CandidatesAre(results, calls, c);
    var candidates := CandidateResults(results, calls, c);
    ExactAre(candidates, c);
    forall k: nat | k < |results| ensures BelongsTo(results[k], calls, c) <==> Reports(calls, c, results[k]) {
      ReportsIs(calls, c, results[k]);
    }
    if c.callId.Some? || IsAlone(calls, c) {
      ChosenAre(results, calls, c, at, candidates, ExactResults(candidates, c), MatchingResults(results, calls, c));
    }
  }

  lemma OnlyReporter(results: seq<ToolResult>, calls: seq<ToolCall>, c: ToolCall, at: seq<nat>, i: nat)
    requires i < |at|
    requires forall i :: 0 <= i < |at| ==> at[i] < |results| && Reports(calls, c, results[at[i]])
    requires forall i, j :: 0 <= i < j < |at| ==> at[i] < at[j]
    requires forall j: nat :: j < |results| && j != at[i] ==> !Reports(calls, c, results[j])
    ensures |at| == 1
  {
    hide Reports;
    var j := if i > 0 then 0 else |at| - 1;
    assert at[j] == at[i];
  }

  lemma ChosenAre(results: seq<ToolResult>, calls: seq<ToolCall>, c: ToolCall, at: seq<nat>,
                  candidates: seq<ToolResult>, exact: seq<ToolResult>, chosen: seq<ToolResult>)
    requires c.callId.Some? || IsAlone(calls, c)
    requires |at| == |candidates|
    requires forall i :: 0 <= i < |at| ==>
               at[i] < |results| && results[at[i]] == candidates[i] && Reports(calls, c, results[at[i]])
    requires forall i, j :: 0 <= i < j < |at| ==> at[i] < at[j]
    requires forall k :: 0 <= k < |results| && Reports(calls, c, results[k]) ==> k in at
    requires forall r :: r in exact <==> r in candidates && IsExact(c, r)
    requires chosen == if exact != [] then exact else if |candidates| == 1 then candidates else []
    ensures forall r :: r in chosen ==> exists k: nat :: Counts(results, calls, c, k) && results[k] == r
    ensures forall k: nat :: Counts(results, calls, c, k) ==> k < |results| && results[k] in chosen
  {
    hide Reports, IsAlone;
    forall r | r in chosen ensures exists k: nat :: Counts(results, calls, c, k) && results[k] == r {
      assert r in candidates;
      var i :| 0 <= i < |candidates| && candidates[i] == r;
      assert Counts(results, calls, c, at[i]);
    }
    forall k: nat | Counts(results, calls, c, k) ensures k < |results| && results[k] in chosen {
      var i :| 0 <= i < |at| && at[i] == k;
      assert candidates[i] in candidates;
      if OwnContext(results[k], c) {
        assert candidates[i] in exact;
      } else {
        OnlyReporter(results, calls, c, at, i);
        if exact != [] {
          assert exact[0] in exact;
        }
      }
    }
  }

  // ---- The law ----

  /** The exit code tells; without one, the outcome or the status text. */
  ghost predicate SaysFailure(r: ToolResult, env: Reading)
  {
    || (r.exitCode.Some? && r.exitCode.value != 0)
    || (r.exitCode.None? && (r.outcome == Failed || (r.status.Some? && env.statusFails(r.status.value))))
  }

  /** One of them says so, or none has an exit code or a status and the call's own status says so. */
  ghost predicate IsToldFailed(results: seq<ToolResult>, calls: seq<ToolCall>, c: ToolCall, env: Reading)
  {
    || (exists k: nat :: Counts(results, calls, c, k) && SaysFailure(results[k], env))
    || (&& c.status.Some? && env.statusFails(c.status.value)
        && forall k: nat :: Counts(results, calls, c, k) ==> results[k].exitCode.None? && results[k].status.None?)
  }

  lemma FailureIsTold(r: ToolResult, env: Reading)
    ensures ResultIsFailed(r, env) <==> SaysFailure(r, env)
  {
  }

  lemma CallFailsWhenTold(results: seq<ToolResult>, calls: seq<ToolCall>, c: ToolCall, env: Reading)
    ensures CallFails(results, calls, c, env) <==> IsToldFailed(results, calls, c, env)
  {
    MatchedAre(results, calls, c);
    forall r: ToolResult ensures ResultIsFailed(r, env) <==> SaysFailure(r, env) {
      FailureIsTold(r, env);
    }
    forall r: ToolResult ensures r.exitCode.Some? && r.exitCode.value != 0 ==> SaysFailure(r, env) {
    }
    hide MatchingResults, Counts, ResultIsFailed;
    var matched := MatchingResults(results, calls, c);
    forall k: nat | Counts(results, calls, c, k) ensures k < |results| && results[k] in matched {
    }
    if r: ToolResult :| r in matched && ResultIsFailed(r, env) {
      var k: nat :| Counts(results, calls, c, k) && results[k] == r;
    }
  }

  // ---- Results of calls that failed ----

  ghost predicate Decides(results: seq<ToolResult>, calls: seq<ToolCall>, c: ToolCall, k: nat)
  {
    Counts(results, calls, c, k) && results[k].exitCode.Some?
  }

  ghost predicate Hints(results: seq<ToolResult>, calls: seq<ToolCall>, c: ToolCall, k: nat)
  {
    Counts(results, calls, c, k) && results[k].status.Some?
  }

  /** Exit codes decide alone; without any, and with a status, any failure does; otherwise the call's own status. */
  ghost predicate IsFailedItself(results: seq<ToolResult>, calls: seq<ToolCall>, c: ToolCall, env: Reading)
  {
    if exists k: nat :: Decides(results, calls, c, k) then
      exists k: nat :: Decides(results, calls, c, k) && results[k].exitCode.value != 0
    else if exists k: nat :: Hints(results, calls, c, k) then
      exists k: nat :: Counts(results, calls, c, k) && SaysFailure(results[k], env)
    else c.status.Some? && env.statusFails(c.status.value)
  }

  ghost predicate AreMatched(matched: seq<ToolResult>, results: seq<ToolResult>, calls: seq<ToolCall>, c: ToolCall)
  {
    && (forall r :: r in matched ==> exists k: nat :: Counts(results, calls, c, k) && results[k] == r)
    && forall k: nat :: Counts(results, calls, c, k) ==> k < |results| && results[k] in matched
  }

  lemma MatchedBothWays(results: seq<ToolResult>, calls: seq<ToolCall>, c: ToolCall)
    ensures AreMatched(MatchingResults(results, calls, c), results, calls, c)
  {
    MatchedAre(results, calls, c);
    hide MatchingResults, Reports, IsAlone, OwnContext;
  }

  lemma CodesDecide(matched: seq<ToolResult>, results: seq<ToolResult>, calls: seq<ToolCall>, c: ToolCall)
    requires AreMatched(matched, results, calls, c)
    ensures (exists r :: r in matched && r.exitCode.Some?) <==> exists k: nat :: Decides(results, calls, c, k)
    ensures (exists r :: r in matched && r.exitCode.Some? && r.exitCode.value != 0) <==>
            exists k: nat :: Decides(results, calls, c, k) && results[k].exitCode.value != 0
  {
    hide Counts;
    if r :| r in matched && r.exitCode.Some? {
      var k: nat :| Counts(results, calls, c, k) && results[k] == r;
      assert Decides(results, calls, c, k);
    }
    if r :| r in matched && r.exitCode.Some? && r.exitCode.value != 0 {
      var k: nat :| Counts(results, calls, c, k) && results[k] == r;
      assert Decides(results, calls, c, k);
    }
  }

  lemma StatusesHint(matched: seq<ToolResult>, results: seq<ToolResult>, calls: seq<ToolCall>, c: ToolCall,
                     env: Reading)
    requires AreMatched(matched, results, calls, c)
    ensures (exists r :: r in matched && r.status.Some?) <==> exists k: nat :: Hints(results, calls, c, k)
    ensures (exists r :: r in matched && ResultIsFailed(r, env)) <==>
            exists k: nat :: Counts(results, calls, c, k) && SaysFailure(results[k], env)
  {
    forall r: ToolResult ensures ResultIsFailed(r, env) <==> SaysFailure(r, env) {
      FailureIsTold(r, env);
    }
    hide Counts, ResultIsFailed, SaysFailure;
    if r :| r in matched && r.status.Some? {
      var k: nat :| Counts(results, calls, c, k) && results[k] == r;
      assert Hints(results, calls, c, k);
    }
  }

  lemma CallIsFailedItself(results: seq<ToolResult>, calls: seq<ToolCall>, c: ToolCall, env: Reading)
    ensures CallIsFailed(results, calls, c, env) <==> IsFailedItself(results, calls, c, env)
  {
    MatchedBothWays(results, calls, c);
    hide MatchingResults, AreMatched, Counts, Decides, Hints, ResultIsFailed, SaysFailure;
    var matched := MatchingResults(results, calls, c);
    CodesDecide(matched, results, calls, c);
    StatusesHint(matched, results, calls, c, env);
  }

  /** A result is passed over when it is a duplicate, says that it failed, or its call failed itself. */
  lemma PassedOverWhen(r: ToolResult, results: seq<ToolResult>, calls: seq<ToolCall>, env: Reading)
    ensures ResultIsSkipped(r, results, calls, env) <==>
            || r.isDuplicate || SaysFailure(r, env)
            || exists d :: IsMatch(calls, r, Some(d)) && IsFailedItself(results, calls, d, env)
  {
    FailureIsTold(r, env);
    MatchingCallIs(calls, r);
    hide IsMatch, MatchingCall, ResultIsFailed, SaysFailure, CallIsFailed, IsFailedItself;
    var m := MatchingCall(calls, r);
    if m.Some? {
      CallIsFailedItself(results, calls, m.value, env);
    }
    forall d | IsMatch(calls, r, Some(d)) ensures m == Some(d) {
      IsMatchUnique(calls, r, Some(d), m);
    }
  }
}
