/** What one extraction emits and retracts when every call and result is identified and ids are not reused. */
module FileOperationSets {
  import opened Wrappers
  import opened Slices
  import opened Correlation
  import opened FileOperations

  // ---- Lookup by id ----

  ghost predicate UniqueCalls(calls: seq<ToolCall>)
  {
    && (forall i :: 0 <= i < |calls| ==> calls[i].callId.Some?)
    && (forall i, j :: 0 <= i < j < |calls| ==> calls[i].callId != calls[j].callId)
  }

  ghost predicate UniqueResults(results: seq<ToolResult>)
  {
    && (forall i :: 0 <= i < |results| ==> results[i].callId.Some?)
    && (forall i, j :: 0 <= i < j < |results| ==> results[i].callId != results[j].callId)
  }

  /** A result and the call it names never carry two different sessions or turns. */
  ghost predicate Fits(calls: seq<ToolCall>, results: seq<ToolResult>)
  {
    forall c, r :: c in calls && r in results && c.callId == r.callId ==> ContextsCompatible(c, r)
  }

  ghost predicate NoneMarked(results: seq<ToolResult>)
  {
    forall i :: 0 <= i < |results| ==> !results[i].isDuplicate
  }

  function FindCall(calls: seq<ToolCall>, id: Option<string>): (found: Option<ToolCall>)
    ensures found.Some? ==> found.value in calls && found.value.callId == id
    ensures found.None? ==> forall c :: c in calls ==> c.callId != id
  {
    if calls == [] then None
    else if calls[|calls| - 1].callId == id then Some(calls[|calls| - 1])
    else FindCall(calls[..|calls| - 1], id)
  }

  function FindResult(results: seq<ToolResult>, id: Option<string>): (found: Option<ToolResult>)
    ensures found.Some? ==> found.value in results && found.value.callId == id
    ensures found.None? ==> forall r :: r in results ==> r.callId != id
  {
    if results == [] then None
    else if results[|results| - 1].callId == id then Some(results[|results| - 1])
    else FindResult(results[..|results| - 1], id)
  }

  lemma CallsAreUnique(calls: seq<ToolCall>, c: ToolCall, d: ToolCall)
    requires UniqueCalls(calls) && c in calls && d in calls && c.callId == d.callId
    ensures c == d
  {
  }

  lemma ResultsAreUnique(results: seq<ToolResult>, r: ToolResult, s: ToolResult)
    requires UniqueResults(results) && r in results && s in results && r.callId == s.callId
    ensures r == s
  {
  }

  lemma {:induction false} FindCallConcat(a: seq<ToolCall>, b: seq<ToolCall>, id: Option<string>)
    ensures FindCall(a + b, id) == if FindCall(b, id).Some? then FindCall(b, id) else FindCall(a, id)
  {
    if b == [] {
      assert a + b == a;
    } else {
      assert (a + b)[..|a + b| - 1] == a + b[..|b| - 1];
      FindCallConcat(a, b[..|b| - 1], id);
    }
  }

  lemma {:induction false} FindResultConcat(a: seq<ToolResult>, b: seq<ToolResult>, id: Option<string>)
    ensures FindResult(a + b, id) == if FindResult(b, id).Some? then FindResult(b, id) else FindResult(a, id)
  {
    if b == [] {
      assert a + b == a;
    } else {
      assert (a + b)[..|a + b| - 1] == a + b[..|b| - 1];
      FindResultConcat(a, b[..|b| - 1], id);
    }
  }

  /** With unique ids the context-sensitive lookup is the lookup by id. */
  lemma MatchIsFind(calls: seq<ToolCall>, r: ToolResult)
    requires UniqueCalls(calls) && r.callId.Some? && Fits(calls, [r])
    ensures MatchingCall(calls, r) == FindCall(calls, r.callId)
  {
    hide MatchingCall, FindCall, IsExact;
    MatchingCallIs(calls, r);
    CandidatesMayBelong(r);
    var found := FindCall(calls, r.callId);
    if found.Some? {
      var i: nat :| i < |calls| && calls[i] == found.value;
      assert r in [r];
      assert IsCandidate(calls[i], r);
      assert forall k :: 0 <= k < |calls| && k != i ==> !IsCandidate(calls[k], r);
      assert OnlyCandidateAt(calls, r, i);
    }
  }

  lemma {:induction false} CandidateResultsAre(results: seq<ToolResult>, calls: seq<ToolCall>, c: ToolCall)
    requires UniqueCalls(calls) && UniqueResults(results) && Fits(calls, results) && NoneMarked(results) && c in calls
    ensures CandidateResults(results, calls, c) ==
            match FindResult(results, c.callId) { case Some(r) => [r] case None => [] }
  {
    if results != [] {
      var init, last := results[..|results| - 1], results[|results| - 1];
      CandidateResultsAre(init, calls, c);
      hide MatchingCall, FindCall;
      if last.callId == c.callId {
        MatchIsFind(calls, last);
        CallsAreUnique(calls, c, FindCall(calls, c.callId).value);
        assert FindResult(init, c.callId).None?;
        assert BelongsTo(last, calls, c);
      } else {
        assert !BelongsTo(last, calls, c);
      }
    }
  }

  lemma MatchingResultsAre(results: seq<ToolResult>, calls: seq<ToolCall>, c: ToolCall)
    requires UniqueCalls(calls) && UniqueResults(results) && Fits(calls, results) && NoneMarked(results) && c in calls
    ensures MatchingResults(results, calls, c) ==
            match FindResult(results, c.callId) { case Some(r) => [r] case None => [] }
  {
    hide CandidateResults, FindResult;
    CandidateResultsAre(results, calls, c);
    var found := FindResult(results, c.callId);
    if found.Some? {
      assert [found.value][..0] == [] && ExactResults([], c) == [];
    }
  }

  // ---- When a call counts as failed ----

  /** A failing result; or, when no result says anything by exit code or status, the call's own status. */
  predicate FailedWith(c: ToolCall, r: Option<ToolResult>, env: Reading)
  {
    || (r.Some? && ResultIsFailed(r.value, env))
    || ((r.None? || (r.value.exitCode.None? && r.value.status.None?)) && StatusFails(c.status, env))
  }

  lemma CallFailsIs(results: seq<ToolResult>, calls: seq<ToolCall>, c: ToolCall, env: Reading)
    requires UniqueCalls(calls) && UniqueResults(results) && Fits(calls, results) && NoneMarked(results) && c in calls
    ensures CallFails(results, calls, c, env) == FailedWith(c, FindResult(results, c.callId), env)
  {
    hide MatchingResults, FindResult, StatusFails, ResultIsFailed;
    MatchingResultsAre(results, calls, c);
    var found := FindResult(results, c.callId);
    if found.Some? {
      assert found.value in [found.value];
      assert found.value.exitCode.Some? ==> ResultIsFailed(found.value, env) == (found.value.exitCode.value != 0) by {
        ByExitCode(found.value, env);
      }
    }
  }

  lemma ByExitCode(r: ToolResult, env: Reading)
    ensures r.exitCode.Some? ==> ResultIsFailed(r, env) == (r.exitCode.value != 0)
  {
  }

  /** Whether a result's operations are left out, given its call. */
  predicate Skips(r: ToolResult, m: Option<ToolCall>, env: Reading)
  {
    if m.Some? then FailedWith(m.value, Some(r), env) else ResultIsFailed(r, env)
  }

  lemma ResultIsSkippedIs(r: ToolResult, results: seq<ToolResult>, calls: seq<ToolCall>, env: Reading)
    requires UniqueCalls(calls) && UniqueResults(results) && Fits(calls, results) && NoneMarked(results) && r in results
    ensures ResultIsSkipped(r, results, calls, env) == Skips(r, FindCall(calls, r.callId), env)
    ensures MatchingCall(calls, r) == FindCall(calls, r.callId)
  {
    hide MatchingCall, CallIsFailed, CallHasFailedResult, ResultIsFailed, StatusFails, FindCall, FindResult;
    MatchIsFind(calls, r);
    var m := FindCall(calls, r.callId);
    if m.Some? {
      CallFailsIs(results, calls, m.value, env);
      ResultsAreUnique(results, r, FindResult(results, r.callId).value);
      FailedResultIsResultFailed(r, results, calls, m.value, env);
    }
  }

  lemma FailedResultIsResultFailed(r: ToolResult, results: seq<ToolResult>, calls: seq<ToolCall>, c: ToolCall,
                                   env: Reading)
    requires UniqueCalls(calls) && UniqueResults(results) && Fits(calls, results) && NoneMarked(results) && c in calls
    requires r in results && r.callId == c.callId
    ensures CallHasFailedResult(results, calls, c, env) == ResultIsFailed(r, env)
  {
    hide MatchingResults, FindResult, ResultIsFailed;
    MatchingResultsAre(results, calls, c);
    ResultsAreUnique(results, r, FindResult(results, c.callId).value);
    assert r in [r];
  }

  // ---- Operations by owner ----

  function KeysOf(observed: seq<Observed>): set<Key>
  {
    set o | o in observed :: o.key
  }

  /** The operations whose key is new: not seen before, and the first of its key in the list. */
  function Fresh(observed: seq<Observed>, seen: set<Key>): seq<Operation>
  {
    if observed == [] then []
    else
      var init, last := observed[..|observed| - 1], observed[|observed| - 1];
      Fresh(init, seen) + if last.key in seen || last.key in KeysOf(init) then [] else [last.operation]
  }

  function CallOps(c: ToolCall): seq<Operation>
  {
    Fresh(CallOperations(c), {})
  }

  /** What a result adds to what its call already announced. */
  function ResultOps(r: ToolResult, m: Option<ToolCall>, env: Reading): seq<Operation>
  {
    Fresh(ResultOperations(r, m, env), if m.Some? then KeysOf(CallOperations(m.value)) else {})
  }

  lemma KeysSnoc(observed: seq<Observed>)
    requires observed != []
    ensures KeysOf(observed) == KeysOf(observed[..|observed| - 1]) + {observed[|observed| - 1].key}
  {
    var init, last := observed[..|observed| - 1], observed[|observed| - 1];
    assert observed == init + [last];
  }

  lemma {:induction false} FreshAgrees(observed: seq<Observed>, a: set<Key>, b: set<Key>)
    requires forall o :: o in observed ==> (o.key in a <==> o.key in b)
    ensures Fresh(observed, a) == Fresh(observed, b)
  {
    if observed != [] {
      FreshAgrees(observed[..|observed| - 1], a, b);
    }
  }

  lemma {:induction false} ClaimAllIs(x: Extraction, call: ToolCall, observed: seq<Observed>)
    requires call.callId.Some?
    ensures ClaimAll(x, call, observed) == x.(seen := x.seen + KeysOf(observed))
  {
    if observed != [] {
      ClaimAllIs(x, call, observed[..|observed| - 1]);
      KeysSnoc(observed);
    }
  }

  lemma {:induction false} EmitAllIs(x: Extraction, call: ToolCall, observed: seq<Observed>)
    requires call.callId.Some?
    ensures EmitAll(x, call, observed) ==
        x.(seen := x.seen + KeysOf(observed), emitted := x.emitted + Fresh(observed, x.seen))
  {
    if observed != [] {
      var init := observed[..|observed| - 1];
      EmitAllIs(x, call, init);
      KeysSnoc(observed);
      hide KeysOf;
      Assoc(x.emitted, Fresh(init, x.seen), [observed[|observed| - 1].operation]);
      NothingAdded(x.emitted + Fresh(init, x.seen), Fresh(init, x.seen));
      assert x.seen + KeysOf(init) + {observed[|observed| - 1].key} == x.seen + KeysOf(observed);
    }
  }

  lemma NothingAdded<T>(a: seq<T>, b: seq<T>)
    ensures a + [] == a && b + [] == b
  {
  }

  lemma {:induction false} AddAllIs(x: Extraction, r: ToolResult, observed: seq<Observed>)
    requires r.callId.Some?
    ensures AddAll(x, r, observed) ==
        x.(seen := x.seen + KeysOf(observed), emitted := x.emitted + Fresh(observed, x.seen))
  {
    if observed != [] {
      var init := observed[..|observed| - 1];
      AddAllIs(x, r, init);
      KeysSnoc(observed);
      hide KeysOf, FirstRepeated;
      Assoc(x.emitted, Fresh(init, x.seen), [observed[|observed| - 1].operation]);
      NothingAdded(x.emitted + Fresh(init, x.seen), Fresh(init, x.seen));
      assert x.seen + KeysOf(init) + {observed[|observed| - 1].key} == x.seen + KeysOf(observed);
    }
  }

  // ---- The keys and operations of a list of calls or results ----

  function KeptKeys(calls: seq<ToolCall>, results: seq<ToolResult>, env: Reading): set<Key>
  {
    if calls == [] then {}
    else
      var init, last := calls[..|calls| - 1], calls[|calls| - 1];
      KeptKeys(init, results, env)
      + if FailedWith(last, FindResult(results, last.callId), env) then {} else KeysOf(CallOperations(last))
  }

  function KeptOps(calls: seq<ToolCall>, results: seq<ToolResult>, env: Reading): seq<Operation>
  {
    if calls == [] then []
    else
      var init, last := calls[..|calls| - 1], calls[|calls| - 1];
      KeptOps(init, results, env)
      + if FailedWith(last, FindResult(results, last.callId), env) then [] else CallOps(last)
  }

  function FailedOps(calls: seq<ToolCall>, results: seq<ToolResult>, env: Reading): seq<Operation>
  {
    if calls == [] then []
    else
      var init, last := calls[..|calls| - 1], calls[|calls| - 1];
      FailedOps(init, results, env)
      + if FailedWith(last, FindResult(results, last.callId), env) then Plain(CallOperations(last)) else []
  }

  function ResultKeys(results: seq<ToolResult>, calls: seq<ToolCall>, env: Reading): set<Key>
  {
    if results == [] then {}
    else
      var init, last := results[..|results| - 1], results[|results| - 1];
      var m := FindCall(calls, last.callId);
      ResultKeys(init, calls, env) + if Skips(last, m, env) then {} else KeysOf(ResultOperations(last, m, env))
  }

  function KeptResultOps(results: seq<ToolResult>, calls: seq<ToolCall>, env: Reading): seq<Operation>
  {
    if results == [] then []
    else
      var init, last := results[..|results| - 1], results[|results| - 1];
      var m := FindCall(calls, last.callId);
      KeptResultOps(init, calls, env) + if Skips(last, m, env) then [] else ResultOps(last, m, env)
  }

  lemma {:induction false} KeptKeysByOwner(calls: seq<ToolCall>, results: seq<ToolResult>, env: Reading, key: Key)
    requires UniqueCalls(calls) && key.identity.CallId?
    ensures key in KeptKeys(calls, results, env) <==>
            (var m := FindCall(calls, Some(key.identity.id));
             m.Some? && !FailedWith(m.value, FindResult(results, m.value.callId), env)
                 && key in KeysOf(CallOperations(m.value)))
  {
    if calls != [] {
      var init, last := calls[..|calls| - 1], calls[|calls| - 1];
      KeptKeysByOwner(init, results, env, key);
      hide FailedWith, KeysOf, CallOperations, FindResult;
      KeysCarryTheIdOfCall(last, key);
      if last.callId == Some(key.identity.id) {
        assert FindCall(init, last.callId).None?;
      }
    }
  }

  lemma KeysCarryTheIdOfCall(c: ToolCall, key: Key)
    ensures c.callId.Some? && key in KeysOf(CallOperations(c)) ==> key.identity == CallId(c.callId.value)
  {
  }

  lemma {:induction false} ResultKeysByOwner(results: seq<ToolResult>, calls: seq<ToolCall>, env: Reading, key: Key)
    requires (forall i :: 0 <= i < |results| ==> results[i].callId.Some?) && key.identity.CallId?
    requires forall r :: r in results ==> r.callId != Some(key.identity.id)
    ensures key !in ResultKeys(results, calls, env)
  {
    if results != [] {
      var init, last := results[..|results| - 1], results[|results| - 1];
      ResultKeysByOwner(init, calls, env, key);
      hide Skips, FindCall, KeysOf, ResultOperations;
      KeysCarryTheIdOfResult(last, FindCall(calls, last.callId), env, key);
    }
  }

  // ---- The passes ----

  lemma {:induction false} PriorPassIs(prior: seq<ToolCall>, n: nat, results: seq<ToolResult>, calls: seq<ToolCall>,
                                       env: Reading)
    requires n <= |prior| && (forall i :: 0 <= i < |prior| ==> prior[i] in calls)
    requires UniqueCalls(calls) && UniqueResults(results) && Fits(calls, results) && NoneMarked(results)
    ensures PriorPass(prior, n, results, calls, env) ==
            Extraction(KeptKeys(prior[..n], results, env), [], [], FailedOps(prior[..n], results, env))
  {
    if n > 0 {
      PriorPassIs(prior, n - 1, results, calls, env);
      var call := prior[n - 1];
      hide FailedWith, CallFails, CallOperations, ClaimAll, FindResult, UniqueResults, Fits, NoneMarked;
      CallFailsIs(results, calls, call, env);
      assert prior[..n][..n - 1] == prior[..n - 1] && prior[..n][n - 1] == call;
      ClaimAllIs(PriorPass(prior, n - 1, results, calls, env), call, CallOperations(call));
      NothingAdded(FailedOps(prior[..n - 1], results, env), FailedOps(prior[..n - 1], results, env));
    }
  }

  lemma OwnKeysAreNew(calls: seq<ToolCall>, k: nat, results: seq<ToolResult>, env: Reading, key: Key)
    requires UniqueCalls(calls) && k < |calls| && key in KeysOf(CallOperations(calls[k]))
    ensures key !in KeptKeys(calls[..k], results, env)
  {
    hide KeptKeys, KeysOf, CallOperations, FailedWith, FindCall, FindResult;
    KeysCarryTheIdOfCall(calls[k], key);
    KeptKeysByOwner(calls[..k], results, env, key);
    NotAnEarlierCall(calls, k);
  }

  lemma NotAnEarlierCall(calls: seq<ToolCall>, k: nat)
    requires UniqueCalls(calls) && k < |calls|
    ensures FindCall(calls[..k], calls[k].callId).None?
  {
    hide FindCall;
    forall c | c in calls[..k] ensures c.callId != calls[k].callId {
      var i :| 0 <= i < k && calls[..k][i] == c;
      assert calls[i] == c;
    }
  }

  lemma NotAnEarlierResult(results: seq<ToolResult>, k: nat)
    requires UniqueResults(results) && k < |results|
    ensures forall r :: r in results[..k] ==> r.callId != results[k].callId
  {
    forall r | r in results[..k] ensures r.callId != results[k].callId {
      var i :| 0 <= i < k && results[..k][i] == r;
      assert results[i] == r;
    }
  }

  lemma OwnOpsAreFresh(calls: seq<ToolCall>, k: nat, results: seq<ToolResult>, env: Reading)
    requires UniqueCalls(calls) && k < |calls|
    ensures Fresh(CallOperations(calls[k]), KeptKeys(calls[..k], results, env)) == CallOps(calls[k])
  {
    hide UniqueCalls, KeptKeys, Fresh, CallOperations;
    var observed := CallOperations(calls[k]);
    forall o | o in observed ensures o.key in KeptKeys(calls[..k], results, env) <==> o.key in {} {
      assert o.key in KeysOf(observed);
      OwnKeysAreNew(calls, k, results, env, o.key);
    }
    FreshAgrees(observed, KeptKeys(calls[..k], results, env), {});
  }

  lemma KeptKeysSnoc(calls: seq<ToolCall>, k: nat, results: seq<ToolResult>, env: Reading)
    requires 0 < k <= |calls|
    ensures KeptKeys(calls[..k], results, env) ==
            KeptKeys(calls[..k - 1], results, env)
            + if FailedWith(calls[k - 1], FindResult(results, calls[k - 1].callId), env) then {}
                else KeysOf(CallOperations(calls[k - 1]))
  {
    hide FailedWith, FindResult, KeysOf, CallOperations;
    assert calls[..k][..k - 1] == calls[..k - 1];
  }

  lemma KeptOpsSnoc(calls: seq<ToolCall>, k: nat, results: seq<ToolResult>, env: Reading)
    requires 0 < k <= |calls|
    ensures KeptOps(calls[..k], results, env) ==
            if FailedWith(calls[k - 1], FindResult(results, calls[k - 1].callId), env) then
                KeptOps(calls[..k - 1], results, env)
            else KeptOps(calls[..k - 1], results, env) + CallOps(calls[k - 1])
  {
    hide FailedWith, FindResult, CallOps;
    assert calls[..k][..k - 1] == calls[..k - 1];
  }

  lemma CallStep(y: Extraction, calls: seq<ToolCall>, k: nat, results: seq<ToolResult>, env: Reading)
    requires k < |calls| && y.seen == KeptKeys(calls[..k], results, env)
    requires UniqueCalls(calls) && UniqueResults(results) && Fits(calls, results) && NoneMarked(results)
    ensures (if CallFails(results, calls, calls[k], env) then y else EmitAll(y, calls[k], CallOperations(calls[k]))) ==
            y.(seen := KeptKeys(calls[..k + 1], results, env),
               emitted := if FailedWith(calls[k], FindResult(results, calls[k].callId), env) then y.emitted
                          else y.emitted + CallOps(calls[k]))
  {
    hide FailedWith, CallFails, CallOperations, EmitAll, FindResult, UniqueResults, Fits, NoneMarked, KeysOf, CallOps,
         KeptKeys;
    CallFailsIs(results, calls, calls[k], env);
    EmitAllIs(y, calls[k], CallOperations(calls[k]));
    OwnOpsAreFresh(calls, k, results, env);
    KeptKeysSnoc(calls, k + 1, results, env);
    assert y.seen + {} == y.seen;
  }

  lemma NothingKept(calls: seq<ToolCall>, results: seq<ToolResult>, env: Reading)
    ensures KeptOps(calls[..0], results, env) == []
  {
  }

  lemma {:induction false} CallPassIs(x: Extraction, current: seq<ToolCall>, n: nat, results: seq<ToolResult>,
                                      calls: seq<ToolCall>, base: nat, env: Reading)
    requires n <= |current| && base + |current| == |calls| && calls[base..] == current
    requires x.seen == KeptKeys(calls[..base], results, env) && x.emitted == []
    requires UniqueCalls(calls) && UniqueResults(results) && Fits(calls, results) && NoneMarked(results)
    ensures CallPass(x, current, n, results, calls, env) ==
            x.(seen := KeptKeys(calls[..base + n], results, env), emitted := KeptOps(current[..n], results, env))
  {
    hide FailedWith, CallFails, CallOperations, EmitAll, FindResult, UniqueCalls, UniqueResults, Fits, NoneMarked,
         CallOps, KeptKeys, KeptOps;
    if n == 0 {
      NothingKept(current, results, env);
    } else {
      CallPassIs(x, current, n - 1, results, calls, base, env);
      assert current[n - 1] == calls[base + n - 1];
      CallStep(CallPass(x, current, n - 1, results, calls, env), calls, base + n - 1, results, env);
      KeptOpsSnoc(current, n, results, env);
    }
  }

  /** Of the keys seen when a result's turn comes, those it can meet are its own call's. */
  lemma SeenByResult(results: seq<ToolResult>, n: nat, calls: seq<ToolCall>, env: Reading, key: Key)
    requires UniqueCalls(calls) && UniqueResults(results) && n < |results|
    requires var m := FindCall(calls, results[n].callId);
             !Skips(results[n], m, env) && key in KeysOf(ResultOperations(results[n], m, env))
    ensures var m := FindCall(calls, results[n].callId);
            key in KeptKeys(calls, results, env) + ResultKeys(results[..n], calls, env)
            <==> key in if m.Some? then KeysOf(CallOperations(m.value)) else {}
  {
    hide KeptKeys, ResultKeys, KeysOf, CallOperations, ResultOperations, FailedWith, FindCall, FindResult,
         ResultIsFailed;
    var r := results[n];
    var m := FindCall(calls, r.callId);
    KeysCarryTheIdOfResult(r, m, env, key);
    KeptKeysByOwner(calls, results, env, key);
    ResultsAreUnique(results, r, FindResult(results, r.callId).value);
    NotAnEarlierResult(results, n);
    ResultKeysByOwner(results[..n], calls, env, key);
  }

  lemma KeysCarryTheIdOfResult(r: ToolResult, m: Option<ToolCall>, env: Reading, key: Key)
    ensures r.callId.Some? && key in KeysOf(ResultOperations(r, m, env)) ==> key.identity == CallId(r.callId.value)
  {
  }

  lemma ResultOpsAreFresh(results: seq<ToolResult>, n: nat, calls: seq<ToolCall>, env: Reading)
    requires UniqueCalls(calls) && UniqueResults(results) && n < |results|
    requires !Skips(results[n], FindCall(calls, results[n].callId), env)
    ensures var m := FindCall(calls, results[n].callId);
            Fresh(ResultOperations(results[n], m, env), KeptKeys(calls, results, env)
                + ResultKeys(results[..n], calls, env))
            == ResultOps(results[n], m, env)
  {
    hide UniqueCalls, UniqueResults, KeptKeys, ResultKeys, Fresh, CallOperations, ResultOperations, Skips, FindCall;
    var m := FindCall(calls, results[n].callId);
    var observed := ResultOperations(results[n], m, env);
    var seen := KeptKeys(calls, results, env) + ResultKeys(results[..n], calls, env);
    var own := if m.Some? then KeysOf(CallOperations(m.value)) else {};
    forall o | o in observed ensures o.key in seen <==> o.key in own {
      assert o.key in KeysOf(observed);
      SeenByResult(results, n, calls, env, o.key);
    }
    FreshAgrees(observed, seen, own);
  }

  lemma {:induction false} ResultPassIs(x: Extraction, n: nat, results: seq<ToolResult>, calls: seq<ToolCall>,
                                        env: Reading)
    requires n <= |results| && x.seen == KeptKeys(calls, results, env)
    requires UniqueCalls(calls) && UniqueResults(results) && Fits(calls, results) && NoneMarked(results)
    ensures ResultPass(x, n, results, calls, env) ==
            x.(seen := KeptKeys(calls, results, env) + ResultKeys(results[..n], calls, env),
               emitted := x.emitted + KeptResultOps(results[..n], calls, env))
  {
    hide UniqueCalls, Fits, NoneMarked, KeptKeys, FindCall, Skips, ResultIsSkipped, MatchingCall, ResultOperations,
         AddAll, ResultOps, KeysOf;
    if n == 0 {
      NothingAdded(x.emitted, x.emitted);
    } else {
      ResultPassIs(x, n - 1, results, calls, env);
      var y, r := ResultPass(x, n - 1, results, calls, env), results[n - 1];
      var m := FindCall(calls, r.callId);
      ResultIsSkippedIs(r, results, calls, env);
      assert results[..n][..n - 1] == results[..n - 1] && results[..n][n - 1] == r;
      var before := KeptResultOps(results[..n - 1], calls, env);
      if Skips(r, m, env) {
        NothingAdded(before, before);
      } else {
        AddAllIs(y, r, ResultOperations(r, m, env));
        ResultOpsAreFresh(results, n - 1, calls, env);
        Assoc(x.emitted, before, ResultOps(r, m, env));
      }
    }
  }

  /**
   * One extraction: what the calls and results that did not fail name, and what failed calls of earlier polls had
   * named.
   */
  lemma ExtractIs(prior: seq<ToolCall>, current: seq<ToolCall>, results: seq<ToolResult>, env: Reading)
    requires var calls := prior + current;
             UniqueCalls(calls) && UniqueResults(results) && Fits(calls, results) && NoneMarked(results)
    ensures var x := Extract(prior, current, results, env);
            && x.emitted == KeptOps(current, results, env) + KeptResultOps(results, prior + current, env)
            && x.invalidated == FailedOps(prior, results, env)
  {
    hide UniqueCalls, UniqueResults, Fits, NoneMarked, PriorPass, CallPass, ResultPass, KeptKeys, KeptOps,
         KeptResultOps, FailedOps, ResultKeys;
    var calls := prior + current;
    PriorPassIs(prior, |prior|, results, calls, env);
    TakeAll(prior, |prior|);
    TakeAll(current, |current|);
    TakeAll(results, |results|);
    TakeAll(calls, |calls|);
    var x := PriorPass(prior, |prior|, results, calls, env);
    assert calls[|prior|..] == current && calls[..|prior|] == prior && calls[..|prior| + |current|] == calls;
    CallPassIs(x, current, |current|, results, calls, |prior|, env);
    ResultPassIs(CallPass(x, current, |current|, results, calls, env), |results|, results, calls, env);
  }

  // ---- Where operations come from, with or without ids ----

  ghost predicate StemsFromCall(op: Operation, c: ToolCall)
  {
    c.sessionId == Some(op.session) && op.provenance == c.provenance
  }

  ghost predicate StemsFromResult(op: Operation, r: ToolResult)
  {
    r.sessionId == Some(op.session) && op.provenance == r.provenance
  }

  lemma {:induction false} EmitAllAddsObserved(x: Extraction, c: ToolCall, observed: seq<Observed>, op: Operation)
    requires op in EmitAll(x, c, observed).emitted
    ensures op in x.emitted || exists i :: 0 <= i < |observed| && observed[i].operation == op
  {
    if observed != [] {
      var n := |observed| - 1;
      if op in EmitAll(x, c, observed[..n]).emitted {
        EmitAllAddsObserved(x, c, observed[..n], op);
      } else {
        assert observed[n].operation == op;
      }
    }
  }

  lemma {:induction false} AddAllAddsObserved(x: Extraction, r: ToolResult, observed: seq<Observed>, op: Operation)
    requires op in AddAll(x, r, observed).emitted
    ensures op in x.emitted || exists i :: 0 <= i < |observed| && observed[i].operation == op
  {
    if observed != [] {
      var n := |observed| - 1;
      hide FirstRepeated;
      if op in AddAll(x, r, observed[..n]).emitted {
        AddAllAddsObserved(x, r, observed[..n], op);
      } else {
        assert observed[n].operation == op;
      }
    }
  }

  lemma ObservedStemsFromCall(c: ToolCall, op: Operation)
    ensures (exists i :: 0 <= i < |CallOperations(c)| && CallOperations(c)[i].operation == op) ==> StemsFromCall(op, c)
  {
  }

  lemma ObservedStemsFromResult(r: ToolResult, m: Option<ToolCall>, env: Reading, op: Operation)
    ensures (exists i :: 0 <= i < |ResultOperations(r, m, env)| && ResultOperations(r, m, env)[i].operation == op) ==>
              StemsFromResult(op, r)
  {
  }

  lemma {:induction false} ClaimAllEmitsNothing(x: Extraction, c: ToolCall, observed: seq<Observed>)
    ensures ClaimAll(x, c, observed).emitted == x.emitted
  {
    if observed != [] {
      ClaimAllEmitsNothing(x, c, observed[..|observed| - 1]);
    }
  }

  lemma {:induction false} PriorPassEmitsNothing(prior: seq<ToolCall>, n: nat, results: seq<ToolResult>,
                                                 calls: seq<ToolCall>, env: Reading)
    requires n <= |prior|
    ensures PriorPass(prior, n, results, calls, env).emitted == []
  {
    hide CallFails, CallOperations, ClaimAll;
    if n > 0 {
      PriorPassEmitsNothing(prior, n - 1, results, calls, env);
      ClaimAllEmitsNothing(PriorPass(prior, n - 1, results, calls, env), prior[n - 1], CallOperations(prior[n - 1]));
    }
  }

  lemma {:induction false} CallPassEmitsOwn(x: Extraction, current: seq<ToolCall>, n: nat, results: seq<ToolResult>,
                                            calls: seq<ToolCall>, env: Reading, op: Operation)
    requires n <= |current| && op in CallPass(x, current, n, results, calls, env).emitted
    ensures op in x.emitted || exists i :: 0 <= i < |current| && StemsFromCall(op, current[i])
  {
    hide CallFails, EmitAll, CallOperations, StemsFromCall;
    if n > 0 {
      var y, call := CallPass(x, current, n - 1, results, calls, env), current[n - 1];
      if op in y.emitted {
        CallPassEmitsOwn(x, current, n - 1, results, calls, env, op);
      } else {
        EmitAllAddsObserved(y, call, CallOperations(call), op);
        ObservedStemsFromCall(call, op);
      }
    }
  }

  lemma {:induction false} ResultPassEmitsOwn(x: Extraction, n: nat, results: seq<ToolResult>, calls: seq<ToolCall>,
                                              env: Reading, op: Operation)
    requires n <= |results| && op in ResultPass(x, n, results, calls, env).emitted
    ensures op in x.emitted || exists i :: 0 <= i < |results| && StemsFromResult(op, results[i])
  {
    hide ResultIsSkipped, MatchingCall, AddAll, ResultOperations, StemsFromResult;
    if n > 0 {
      var y, r := ResultPass(x, n - 1, results, calls, env), results[n - 1];
      if op in y.emitted {
        ResultPassEmitsOwn(x, n - 1, results, calls, env, op);
      } else {
        AddAllAddsObserved(y, r, ResultOperations(r, MatchingCall(calls, r), env), op);
        ObservedStemsFromResult(r, MatchingCall(calls, r), env, op);
      }
    }
  }

  /**
   * Every emitted operation belongs to the session, and the place, of a call or result just read; ids play no part
   * here.
   */
  lemma EmittedStemFromRows(prior: seq<ToolCall>, current: seq<ToolCall>, results: seq<ToolResult>, env: Reading,
                            op: Operation)
    ensures op in Extract(prior, current, results, env).emitted ==>
              || (exists i :: 0 <= i < |current| && StemsFromCall(op, current[i]))
              || (exists i :: 0 <= i < |results| && StemsFromResult(op, results[i]))
  {
    hide PriorPass, CallPass, ResultPass, StemsFromCall, StemsFromResult;
    var calls := prior + current;
    PriorPassEmitsNothing(prior, |prior|, results, calls, env);
    var x := PriorPass(prior, |prior|, results, calls, env);
    var y := CallPass(x, current, |current|, results, calls, env);
    if op in Extract(prior, current, results, env).emitted {
      ResultPassEmitsOwn(y, |results|, results, calls, env, op);
    }
    if op in y.emitted {
      CallPassEmitsOwn(x, current, |current|, results, calls, env, op);
    }
  }
}
