/** Reading a log in polls against reading it at once: when both leave the same file operations in the store. */
module FileOperationRuns {
  import opened Wrappers
  import opened Correlation
  import opened Duplicates
  import opened FileOperations
  import opened FileOperationSets

  // ---- The logs the two readings are compared on ----

  /** Every call and result stems from a place of its own in the log. */
  ghost predicate OwnPlaces(calls: seq<ToolCall>, results: seq<ToolResult>)
  {
    && (forall i, j :: 0 <= i < j < |calls| ==> calls[i].provenance != calls[j].provenance)
    && (forall c, r :: c in calls && r in results ==> c.provenance != r.provenance)
  }

  ghost predicate NoResultBeforeItsCall(batches: seq<Batch>)
  {
    forall i, j, c, r :: 0 <= i < j < |batches| && c in batches[j].calls && r in batches[i].results ==>
        c.callId != r.callId
  }

  ghost predicate AllUnmarked(results: seq<ToolResult>)
  {
    forall i :: 0 <= i < |results| ==> IsUnmarked(results[i])
  }

  /** Ids name one call and at most one result, and the result does not come before the call. */
  ghost predicate WellFormed(batches: seq<Batch>)
  {
    var all := Merged(batches);
    && UniqueCalls(all.calls) && UniqueResults(all.results) && AllUnmarked(all.results)
    && Fits(all.calls, all.results) && OwnPlaces(all.calls, all.results)
    && NoResultBeforeItsCall(batches)
  }

  /** How many calls wait for a result after n polls. */
  function Waiting(batches: seq<Batch>, m: nat): nat
    requires m <= |batches|
  {
    var all := Merged(batches[..m]); |Unanswered(all.calls, all.results)|
  }

  /** At no poll do more calls wait for a result than are carried along. */
  ghost predicate FewPending(batches: seq<Batch>)
  {
    forall n :: 0 <= n <= |batches| ==> Waiting(batches, n) <= MAX_PENDING_TOOL_CALLS
  }

  ghost predicate ComesLater(batches: seq<Batch>, i: nat, j: nat, c: ToolCall, r: ToolResult)
  {
    i < j < |batches| && c in batches[i].calls && r in batches[j].results && r.callId == c.callId
  }

  /** A call that failed by its own status gets, in a later poll, a result that says it did not fail after all. */
  ghost predicate RecoversLate(batches: seq<Batch>, i: nat, j: nat, c: ToolCall, r: ToolResult, env: Reading)
  {
    && ComesLater(batches, i, j, c, r)
    && StatusFails(c.status, env) && !FailedWith(c, Some(r), env)
    && c.sessionId.Some? && c.targets != []
  }

  // ---- Marking leaves unrepeated results alone ----

  function KeptForm(r: ToolResult, env: Reading): ToolResult
  {
    r.(deduplicationKey := Some(ResultKey(env.key, r)))
  }

  function AllKept(results: seq<ToolResult>, env: Reading): (kept: seq<ToolResult>)
    ensures |kept| == |results| && forall i :: 0 <= i < |results| ==> kept[i] == KeptForm(results[i], env)
  {
    seq(|results|, i requires 0 <= i < |results| => KeptForm(results[i], env))
  }

  lemma AllKeptConcat(a: seq<ToolResult>, b: seq<ToolResult>, env: Reading)
    ensures AllKept(a + b, env) == AllKept(a, env) + AllKept(b, env)
  {
  }

  lemma MarkedIsKept(prior: seq<ToolResult>, results: seq<ToolResult>, env: Reading)
    requires UniqueResults(results) && AllUnmarked(results)
    requires forall p, r :: p in prior && r in results ==> p.callId != r.callId
    ensures Marked(prior, results, env) == AllKept(results, env)
  {
    hide ResultKey, MarkFirst, Ends, NeverLower, FirstEquivalent, IsUnmarked, Quality;
    var links := DuplicatesReachKeptResults(prior, results, env.key);
    var marked := Marked(prior, results, env);
    forall i | 0 <= i < |results| ensures marked[i] == KeptForm(results[i], env) {
      assert LinkHolds(prior, results, links, i);
      if !links[i].Kept? {
        NoEquivalent(prior, results, links, i);
      }
    }
  }

  lemma NoEquivalent(prior: seq<ToolResult>, results: seq<ToolResult>, links: seq<Link>, i: nat)
    requires UniqueResults(results) && i < |links| <= |results| && LinkHolds(prior, results, links, i)
    requires forall p, r :: p in prior && r in results ==> p.callId != r.callId
    ensures links[i].Kept?
  {
    forall p | 0 <= p < |prior| ensures !Equivalent(prior[p], results[i]) {
      assert prior[p] in prior && results[i] in results;
    }
    forall t | 0 <= t < |results| && t != i ensures !Equivalent(results[t], results[i]) {
    }
  }

  lemma KeptIsAlike(calls: seq<ToolCall>, results: seq<ToolResult>, env: Reading)
    ensures UniqueResults(results) ==> UniqueResults(AllKept(results, env))
    ensures Fits(calls, results) ==> Fits(calls, AllKept(results, env))
    ensures OwnPlaces(calls, results) ==> OwnPlaces(calls, AllKept(results, env))
    ensures AllUnmarked(results) ==> NoneMarked(AllKept(results, env))
  {
    hide ResultKey;
    forall r | r in AllKept(results, env) ensures exists s :: s in results && r == KeptForm(s, env) {
      var i :| 0 <= i < |results| && AllKept(results, env)[i] == r;
      assert results[i] in results;
    }
  }

  // ---- Calls still waiting ----

  lemma {:induction false} UnansweredConcat(a: seq<ToolCall>, b: seq<ToolCall>, results: seq<ToolResult>)
    ensures Unanswered(a + b, results) == Unanswered(a, results) + Unanswered(b, results)
  {
    hide Answers;
    if b == [] {
      assert a + b == a;
    } else {
      assert (a + b)[..|a + b| - 1] == a + b[..|b| - 1];
      UnansweredConcat(a, b[..|b| - 1], results);
    }
  }

  lemma {:induction false} UnansweredTwice(calls: seq<ToolCall>, first: seq<ToolResult>, second: seq<ToolResult>)
    ensures Unanswered(Unanswered(calls, first), second) == Unanswered(calls, first + second)
  {
    hide Answers;
    if calls != [] {
      var init, last := calls[..|calls| - 1], calls[|calls| - 1];
      UnansweredTwice(init, first, second);
      UnansweredConcat(Unanswered(init, first), [last], second);
      assert Unanswered([last], second) == if exists r :: r in second && Answers(r, last) then [] else [last] by {
        assert [last][..0] == [] && Unanswered([], second) == [];
      }
      AnsweredByEither(last, first, second);
      NothingAdded(Unanswered(init, first), Unanswered(init, first + second));
    }
  }

  lemma AnsweredByEither(call: ToolCall, first: seq<ToolResult>, second: seq<ToolResult>)
    ensures (exists r :: r in first + second && Answers(r, call)) <==>
            ((exists r :: r in first && Answers(r, call)) || (exists r :: r in second && Answers(r, call)))
  {
    hide Answers;
    if r :| r in first && Answers(r, call) {
      assert r in first + second;
    }
    if r :| r in second && Answers(r, call) {
      assert r in first + second;
    }
  }

  lemma {:induction false} UnansweredAlike(calls: seq<ToolCall>, before: seq<ToolResult>, results: seq<ToolResult>)
    requires forall c, r :: c in calls && r in before ==> c.callId != r.callId
    ensures Unanswered(calls, before + results) == Unanswered(calls, results)
  {
    if calls != [] {
      var init, last := calls[..|calls| - 1], calls[|calls| - 1];
      UnansweredAlike(init, before, results);
      AnsweredByEither(last, before, results);
      assert last in calls;
    }
  }

  lemma {:induction false} UnansweredMembers(calls: seq<ToolCall>, results: seq<ToolResult>, all: seq<ToolCall>)
    requires Fits(all, results) && forall c :: c in calls ==> c in all
    ensures forall c :: c in Unanswered(calls, results) <==> c in calls && FindResult(results, c.callId).None?
  {
    hide FindResult, ContextsCompatible;
    if calls != [] {
      var init, last := calls[..|calls| - 1], calls[|calls| - 1];
      UnansweredMembers(init, results, all);
      assert calls == init + [last];
      assert last in all;
      var found := FindResult(results, last.callId);
      assert found.Some? ==> Answers(found.value, last);
    }
  }

  // ---- Who put an operation in ----

  ghost predicate CallGives(c: ToolCall, results: seq<ToolResult>, env: Reading, op: Operation)
  {
    op in CallOps(c) && !FailedWith(c, FindResult(results, c.callId), env)
  }

  ghost predicate ResultGives(r: ToolResult, calls: seq<ToolCall>, env: Reading, op: Operation)
  {
    var m := FindCall(calls, r.callId);
    op in ResultOps(r, m, env) && !Skips(r, m, env)
  }

  lemma {:induction false} KeptOpsMembers(calls: seq<ToolCall>, results: seq<ToolResult>, env: Reading, op: Operation)
    ensures op in KeptOps(calls, results, env) <==> exists c :: c in calls && CallGives(c, results, env, op)
  {
    hide CallOps, FailedWith, FindResult;
    if calls != [] {
      var init, last := calls[..|calls| - 1], calls[|calls| - 1];
      KeptOpsMembers(init, results, env, op);
      assert calls == init + [last];
      assert last in calls;
    }
  }

  lemma {:induction false} KeptResultOpsMembers(results: seq<ToolResult>, calls: seq<ToolCall>, env: Reading,
                                                op: Operation)
    ensures op in KeptResultOps(results, calls, env) <==> exists r :: r in results && ResultGives(r, calls, env, op)
  {
    hide ResultOps, Skips, FindCall;
    if results != [] {
      var init, last := results[..|results| - 1], results[|results| - 1];
      KeptResultOpsMembers(init, calls, env, op);
      assert results == init + [last];
      assert last in results;
    }
  }

  ghost predicate Retracts(c: ToolCall, results: seq<ToolResult>, env: Reading, op: Operation)
  {
    op in Plain(CallOperations(c)) && FailedWith(c, FindResult(results, c.callId), env)
  }

  lemma {:induction false} FailedOpsMembers(calls: seq<ToolCall>, results: seq<ToolResult>, env: Reading, op: Operation)
    ensures op in FailedOps(calls, results, env) <==> exists c :: c in calls && Retracts(c, results, env, op)
  {
    hide Plain, CallOperations, FailedWith, FindResult;
    if calls != [] {
      var init, last := calls[..|calls| - 1], calls[|calls| - 1];
      FailedOpsMembers(init, results, env, op);
      assert calls == init + [last];
      assert last in calls;
    }
  }

  lemma {:induction false} FreshIsPlain(observed: seq<Observed>, seen: set<Key>, op: Operation)
    requires op in Fresh(observed, seen)
    ensures op in Plain(observed) && exists o :: o in observed && o.operation == op
  {
    var init, last := observed[..|observed| - 1], observed[|observed| - 1];
    assert last in observed;
    if op in Fresh(init, seen) {
      FreshIsPlain(init, seen, op);
    }
  }

  lemma {:induction false} PlainComesFrom(observed: seq<Observed>, op: Operation)
    requires op in Plain(observed)
    ensures exists o :: o in observed && o.operation == op
  {
    var init, last := observed[..|observed| - 1], observed[|observed| - 1];
    assert last in observed;
    if op in Plain(init) {
      PlainComesFrom(init, op);
    }
  }

  lemma CallOpsHaveItsPlace(c: ToolCall, op: Operation)
    ensures op in CallOps(c) ==> op in Plain(CallOperations(c))
    ensures op in Plain(CallOperations(c)) ==> op.provenance == c.provenance
  {
    if op in CallOps(c) {
      FreshIsPlain(CallOperations(c), {}, op);
    }
    if op in Plain(CallOperations(c)) {
      PlainComesFrom(CallOperations(c), op);
    }
  }

  lemma ResultOpsHaveItsPlace(r: ToolResult, m: Option<ToolCall>, env: Reading, op: Operation)
    ensures op in ResultOps(r, m, env) ==> op.provenance == r.provenance
  {
    if op in ResultOps(r, m, env) {
      FreshIsPlain(ResultOperations(r, m, env), if m.Some? then KeysOf(CallOperations(m.value)) else {}, op);
    }
  }

  // ---- What the store holds ----

  ghost predicate InBatch(calls: seq<ToolCall>, results: seq<ToolResult>, env: Reading, op: Operation)
  {
    || (exists c :: c in calls && CallGives(c, results, env, op))
    || (exists r :: r in results && ResultGives(r, calls, env, op))
  }

  /** `late` are the ids of calls whose result came in a later poll. */
  ghost predicate GivesLive(c: ToolCall, results: seq<ToolResult>, late: set<Option<string>>, env: Reading,
                            op: Operation)
  {
    CallGives(c, results, env, op) && !(c.callId in late && StatusFails(c.status, env))
  }

  ghost predicate InStore(calls: seq<ToolCall>, results: seq<ToolResult>, late: set<Option<string>>, env: Reading,
                          op: Operation)
  {
    || (exists c :: c in calls && GivesLive(c, results, late, env, op))
    || (exists r :: r in results && ResultGives(r, calls, env, op))
  }

  /** The situation between two polls, and what the next one reads. */
  ghost predicate NextFits(calls: seq<ToolCall>, results: seq<ToolResult>, pending: seq<ToolCall>, next: Batch)
  {
    && UniqueCalls(calls + next.calls) && UniqueResults(results + next.results) && NoneMarked(next.results)
    && Fits(calls + next.calls, results + next.results) && OwnPlaces(calls + next.calls, results + next.results)
    && (forall c, r :: c in next.calls && r in results ==> c.callId != r.callId)
    && pending == Unanswered(calls, results)
  }

  ghost predicate LateKnown(calls: seq<ToolCall>, results: seq<ToolResult>, late: set<Option<string>>)
  {
    forall id :: id in late ==> FindCall(calls, id).Some? && FindResult(results, id).Some?
  }

  function MoreLate(late: set<Option<string>>, calls: seq<ToolCall>, results: seq<ToolResult>): set<Option<string>>
  {
    late + set c | c in calls && FindResult(results, c.callId).Some? :: c.callId
  }

  lemma {:induction false} UnansweredAreUnique(calls: seq<ToolCall>, results: seq<ToolResult>)
    requires UniqueCalls(calls)
    ensures UniqueCalls(Unanswered(calls, results)) && forall c :: c in Unanswered(calls, results) ==> c in calls
  {
    if calls != [] {
      var init, last := calls[..|calls| - 1], calls[|calls| - 1];
      UnansweredAreUnique(init, results);
      hide Answers;
      assert calls == init + [last];
      forall c | c in init ensures c.callId != last.callId {
      }
    }
  }

  lemma PendingFits(calls: seq<ToolCall>, results: seq<ToolResult>, pending: seq<ToolCall>, next: Batch)
    requires NextFits(calls, results, pending, next)
    ensures UniqueCalls(pending + next.calls) && UniqueResults(next.results) && Fits(pending + next.calls, next.results)
    ensures forall c :: c in pending <==> c in calls && FindResult(results, c.callId).None?
  {
    hide Unanswered, FindResult, ContextsCompatible;
    PrefixesAreUnique(calls, next.calls);
    UnansweredAreUnique(calls, results);
    UnansweredMembers(calls, results, calls + next.calls) by {
      assert forall c :: c in calls ==> c in calls + next.calls;
      assert forall r :: r in results ==> r in results + next.results;
    }
    var all := calls + next.calls;
    forall i, j | 0 <= i < j < |pending + next.calls|
        ensures (pending + next.calls)[i].callId != (pending + next.calls)[j].callId {
      if i < |pending| <= j {
        var k :| 0 <= k < |calls| && calls[k] == pending[i];
        assert all[k] == pending[i] && all[|calls| + j - |pending|] == next.calls[j - |pending|];
      }
    }
    SuffixesAreUnique(results, next.results);
    forall c, r | c in pending + next.calls && r in next.results && c.callId == r.callId
        ensures ContextsCompatible(c, r) {
      assert c in all && r in results + next.results;
    }
  }

  lemma PrefixesAreUnique(a: seq<ToolCall>, b: seq<ToolCall>)
    requires UniqueCalls(a + b)
    ensures UniqueCalls(a) && UniqueCalls(b)
  {
    assert (a + b)[..|a|] == a && (a + b)[|a|..] == b;
  }

  lemma SuffixesAreUnique(a: seq<ToolResult>, b: seq<ToolResult>)
    requires UniqueResults(a + b)
    ensures UniqueResults(a) && UniqueResults(b)
    ensures forall r, s :: r in a && s in b ==> r.callId != s.callId
  {
    assert (a + b)[..|a|] == a && (a + b)[|a|..] == b;
    forall r, s | r in a && s in b ensures r.callId != s.callId {
      var i :| 0 <= i < |a| && a[i] == r;
      var j :| 0 <= j < |b| && b[j] == s;
      assert (a + b)[i] == r && (a + b)[|a| + j] == s;
    }
  }

  /** A call's result, seen from all results, from the earlier ones and from the next ones. */
  lemma ResultOfCall(calls: seq<ToolCall>, results: seq<ToolResult>, pending: seq<ToolCall>, next: Batch, c: ToolCall)
    requires NextFits(calls, results, pending, next)
    ensures c in next.calls ==> FindResult(results + next.results, c.callId) == FindResult(next.results, c.callId)
    ensures FindResult(results, c.callId).Some? ==>
              FindResult(results + next.results, c.callId) == FindResult(results, c.callId)
                  && FindResult(next.results, c.callId).None?
    ensures FindResult(results, c.callId).None? ==>
              FindResult(results + next.results, c.callId) == FindResult(next.results, c.callId)
  {
    hide FindResult, Fits, OwnPlaces, Unanswered, UniqueCalls, UniqueResults;
    FindResultConcat(results, next.results, c.callId);
    SuffixesAreUnique(results, next.results);
  }

  /** A result's call, seen from all calls, from the earlier ones and from the pending and next ones. */
  lemma CallOfResult(calls: seq<ToolCall>, results: seq<ToolResult>, pending: seq<ToolCall>, next: Batch, r: ToolResult)
    requires NextFits(calls, results, pending, next)
    ensures r in results ==> FindCall(calls + next.calls, r.callId) == FindCall(calls, r.callId)
    ensures r in next.results ==> FindCall(pending + next.calls, r.callId) == FindCall(calls + next.calls, r.callId)
  {
    hide FindCall, FindResult, Fits, OwnPlaces, Unanswered, UniqueResults;
    FindCallConcat(calls, next.calls, r.callId);
    FindCallConcat(pending, next.calls, r.callId);
    PendingFits(calls, results, pending, next);
    SuffixesAreUnique(results, next.results);
    if r in next.results {
      PrefixesAreUnique(calls, next.calls);
      var m := FindCall(calls, r.callId);
      if m.Some? {
        assert FindResult(results, m.value.callId).None?;
        assert m.value in pending;
        CallsAreUnique(calls, m.value, FindCall(pending, r.callId).value);
      }
    }
  }

  lemma {:induction false} EmittedIs(calls: seq<ToolCall>, results: seq<ToolResult>, pending: seq<ToolCall>,
                                     next: Batch, env: Reading, op: Operation)
    requires NextFits(calls, results, pending, next)
    ensures op in Extract(pending, next.calls, next.results, env).emitted <==>
            || (exists c :: c in next.calls && CallGives(c, results + next.results, env, op))
            || (exists r :: r in next.results && ResultGives(r, calls + next.calls, env, op))
    ensures op in Extract(pending, next.calls, next.results, env).invalidated <==>
            exists c :: c in pending && Retracts(c, next.results, env, op)
  {
    hide Extract, FindCall, FindResult, Fits, OwnPlaces, Unanswered, UniqueResults, UniqueCalls, KeptOps, KeptResultOps,
         FailedOps, CallOps, ResultOps, FailedWith, Skips, Plain, CallOperations;
    PendingFits(calls, results, pending, next);
    ExtractIs(pending, next.calls, next.results, env);
    KeptOpsMembers(next.calls, next.results, env, op);
    KeptResultOpsMembers(next.results, pending + next.calls, env, op);
    FailedOpsMembers(pending, next.results, env, op);
    forall c | c in next.calls
        ensures CallGives(c, results + next.results, env, op) == CallGives(c, next.results, env, op) {
      ResultOfCall(calls, results, pending, next, c);
    }
    forall r | r in next.results
      ensures ResultGives(r, calls + next.calls, env, op) == ResultGives(r, pending + next.calls, env, op)
    {
      CallOfResult(calls, results, pending, next, r);
    }
  }

  /** What an earlier call gives after the next poll, given what it gave before. */
  lemma EarlierCall(calls: seq<ToolCall>, results: seq<ToolResult>, late: set<Option<string>>, pending: seq<ToolCall>,
                    next: Batch, env: Reading, op: Operation, c: ToolCall)
    requires NextFits(calls, results, pending, next) && c in calls
    requires LateKnown(calls, results, late)
    ensures GivesLive(c, results + next.results, MoreLate(late, calls, next.results), env, op) <==>
            GivesLive(c, results, late, env, op) && !(c in pending && Retracts(c, next.results, env, op))
  {
    hide FindResult, Fits, OwnPlaces, Unanswered, UniqueResults, UniqueCalls, CallOps, StatusFails, ResultIsFailed,
         Plain, CallOperations;
    PendingFits(calls, results, pending, next);
    ResultOfCall(calls, results, pending, next, c);
    CallOpsHaveItsPlace(c, op);
    LateIff(late, calls, next.results, c);
  }

  lemma LateIff(late: set<Option<string>>, calls: seq<ToolCall>, results: seq<ToolResult>, c: ToolCall)
    requires c in calls
    ensures c.callId in MoreLate(late, calls, results) <==> c.callId in late || FindResult(results, c.callId).Some?
  {
    hide FindResult;
  }

  /** One poll: the store stays explained by the calls and results read so far. */
  lemma PollExplains(calls: seq<ToolCall>, results: seq<ToolResult>, late: set<Option<string>>, pending: seq<ToolCall>,
                     next: Batch, env: Reading, op: Operation, was: bool)
    requires NextFits(calls, results, pending, next)
    requires LateKnown(calls, results, late)
    requires was == InStore(calls, results, late, env, op)
    ensures var x := Extract(pending, next.calls, next.results, env);
            InStore(calls + next.calls, results + next.results, MoreLate(late, calls, next.results), env, op)
            <==> (was && op !in x.invalidated) || op in x.emitted
  {
    hide Extract, FindCall, FindResult, Fits, Unanswered, UniqueResults, UniqueCalls, CallOps, ResultOps, FailedWith,
         Skips, Plain, CallOperations, StatusFails, MoreLate, CallGives, ResultGives, Retracts, GivesLive, OwnPlaces,
         InStore, NoneMarked;
    var allCalls, allResults, more := calls + next.calls, results + next.results, MoreLate(late, calls, next.results);
    EmittedIs(calls, results, pending, next, env, op);
    PendingFits(calls, results, pending, next);
    var invalid := op in Extract(pending, next.calls, next.results, env).invalidated;
    SplitStore(calls, results, late, next, env, op, more);
    InStoreIs(calls, results, late, env, op);
    forall c | c in calls
        ensures GivesLive(c, allResults, more, env, op) <==> GivesLive(c, results, late, env, op) && !invalid {
      EarlierCall(calls, results, late, pending, next, env, op, c);
      OnlyOwnCallRetracts(calls, results, late, pending, next, env, op, c);
    }
    forall r | r in results ensures ResultGives(r, allCalls, env, op) <==> ResultGives(r, calls, env, op) && !invalid {
      EarlierResult(calls, results, pending, next, env, op, r);
    }
    forall c | c in next.calls ensures GivesLive(c, allResults, more, env, op) <==> CallGives(c, allResults, env, op) {
      NewCallIsNotLate(calls, results, late, pending, next, env, op, c);
    }
  }

  lemma InStoreIs(calls: seq<ToolCall>, results: seq<ToolResult>, late: set<Option<string>>, env: Reading,
                  op: Operation)
    ensures InStore(calls, results, late, env, op) <==>
            || (exists c :: c in calls && GivesLive(c, results, late, env, op))
            || (exists r :: r in results && ResultGives(r, calls, env, op))
  {
  }

  lemma SplitStore(calls: seq<ToolCall>, results: seq<ToolResult>, late: set<Option<string>>, next: Batch, env: Reading,
                   op: Operation, more: set<Option<string>>)
    ensures InStore(calls + next.calls, results + next.results, more, env, op) <==>
            || (exists c :: c in calls && GivesLive(c, results + next.results, more, env, op))
            || (exists c :: c in next.calls && GivesLive(c, results + next.results, more, env, op))
            || (exists r :: r in results && ResultGives(r, calls + next.calls, env, op))
            || (exists r :: r in next.results && ResultGives(r, calls + next.calls, env, op))
  {
    hide GivesLive, ResultGives;
    assert forall c :: c in calls + next.calls <==> c in calls || c in next.calls;
    assert forall r :: r in results + next.results <==> r in results || r in next.results;
  }

  lemma SamePlace(calls: seq<ToolCall>, results: seq<ToolResult>, c: ToolCall, d: ToolCall)
    requires OwnPlaces(calls, results) && c in calls && d in calls && c.provenance == d.provenance
    ensures c == d
  {
  }

  /** What an earlier call put in is retracted by that call alone. */
  lemma OnlyOwnCallRetracts(calls: seq<ToolCall>, results: seq<ToolResult>, late: set<Option<string>>,
                            pending: seq<ToolCall>, next: Batch, env: Reading, op: Operation, c: ToolCall)
    requires NextFits(calls, results, pending, next) && c in calls
    ensures GivesLive(c, results, late, env, op) ==>
              ((exists d :: d in pending && Retracts(d, next.results, env, op)) <==>
                  c in pending && Retracts(c, next.results, env, op))
  {
    hide FindResult, Fits, Unanswered, UniqueResults, UniqueCalls, CallOps, FailedWith, Plain, CallOperations,
         StatusFails, OwnPlaces;
    if GivesLive(c, results, late, env, op) {
      CallOpsHaveItsPlace(c, op);
      PendingFits(calls, results, pending, next);
      forall d | d in pending && Retracts(d, next.results, env, op) ensures d == c {
        CallOpsHaveItsPlace(d, op);
        SamePlace(calls + next.calls, results + next.results, c, d);
      }
    }
  }

  /** What a result put in is never retracted, and what it gives does not change. */
  lemma EarlierResult(calls: seq<ToolCall>, results: seq<ToolResult>, pending: seq<ToolCall>, next: Batch, env: Reading,
                      op: Operation, r: ToolResult)
    requires NextFits(calls, results, pending, next) && r in results
    ensures ResultGives(r, calls + next.calls, env, op) <==> ResultGives(r, calls, env, op)
    ensures ResultGives(r, calls, env, op) ==> !exists d :: d in pending && Retracts(d, next.results, env, op)
  {
    hide FindResult, FindCall, Fits, Unanswered, UniqueResults, UniqueCalls, ResultOps, FailedWith, Skips, Plain,
         CallOperations;
    CallOfResult(calls, results, pending, next, r);
    if ResultGives(r, calls, env, op) {
      ResultOpsHaveItsPlace(r, FindCall(calls, r.callId), env, op);
      PendingFits(calls, results, pending, next);
      assert r in results + next.results;
      forall d | d in pending ensures !Retracts(d, next.results, env, op) {
        CallOpsHaveItsPlace(d, op);
        assert d in calls + next.calls;
      }
    }
  }

  lemma NewCallIsNotLate(calls: seq<ToolCall>, results: seq<ToolResult>, late: set<Option<string>>,
                         pending: seq<ToolCall>, next: Batch, env: Reading, op: Operation, c: ToolCall)
    requires NextFits(calls, results, pending, next) && c in next.calls
    requires LateKnown(calls, results, late)
    ensures GivesLive(c, results + next.results, MoreLate(late, calls, next.results), env, op) <==>
        CallGives(c, results + next.results, env, op)
  {
    hide FindResult, Fits, Unanswered, UniqueResults, CallGives, OwnPlaces, StatusFails;
    forall d | d in calls ensures d.callId != c.callId {
      var i :| 0 <= i < |calls| && calls[i] == d;
      var j :| 0 <= j < |next.calls| && next.calls[j] == c;
      assert (calls + next.calls)[i] == d && (calls + next.calls)[|calls| + j] == c;
    }
  }

  // ---- Whole runs ----

  lemma {:induction false} MergedMembers(batches: seq<Batch>)
    ensures forall c :: c in Merged(batches).calls <==> exists i :: 0 <= i < |batches| && c in batches[i].calls
    ensures forall r :: r in Merged(batches).results <==> exists i :: 0 <= i < |batches| && r in batches[i].results
  {
    if batches != [] {
      var n := |batches| - 1;
      var init := batches[..n];
      MergedMembers(init);
      assert forall i :: 0 <= i < n ==> init[i] == batches[i];
      forall c ensures c in Merged(batches).calls <==> exists i :: 0 <= i < |batches| && c in batches[i].calls {
        assert c in Merged(batches).calls <==> c in Merged(init).calls || c in batches[n].calls;
      }
      forall r ensures r in Merged(batches).results <==> exists i :: 0 <= i < |batches| && r in batches[i].results {
        assert r in Merged(batches).results <==> r in Merged(init).results || r in batches[n].results;
      }
    }
  }

  lemma PrefixIsWellFormed(batches: seq<Batch>)
    requires batches != [] && WellFormed(batches)
    ensures WellFormed(batches[..|batches| - 1])
    ensures var all, last := Merged(batches[..|batches| - 1]), batches[|batches| - 1];
            forall c, r :: c in last.calls && r in all.results ==> c.callId != r.callId
  {
    var n := |batches| - 1;
    var init, last := batches[..n], batches[n];
    var all := Merged(init);
    MergedMembers(init);
    assert forall i :: 0 <= i < n ==> init[i] == batches[i];
    WellFormedParts(all, last);
    hide Fits, OwnPlaces, UniqueCalls, UniqueResults, AllUnmarked;
    forall c, r | c in last.calls && r in all.results ensures c.callId != r.callId {
      var i :| 0 <= i < n && r in init[i].results;
      assert r in batches[i].results && c in batches[n].calls;
    }
  }

  lemma WellFormedParts(a: Batch, b: Batch)
    requires var calls, results := a.calls + b.calls, a.results + b.results;
             && UniqueCalls(calls) && UniqueResults(results) && AllUnmarked(results)
             && Fits(calls, results) && OwnPlaces(calls, results)
    ensures UniqueCalls(a.calls) && UniqueResults(a.results) && AllUnmarked(a.results)
    ensures Fits(a.calls, a.results) && OwnPlaces(a.calls, a.results)
    ensures UniqueResults(b.results) && AllUnmarked(b.results)
  {
    var calls, results := a.calls + b.calls, a.results + b.results;
    PrefixesAreUnique(a.calls, b.calls);
    SuffixesAreUnique(a.results, b.results);
    assert forall i :: 0 <= i < |a.results| ==> a.results[i] == results[i];
    assert forall i :: 0 <= i < |b.results| ==> b.results[i] == results[|a.results| + i];
    assert forall i :: 0 <= i < |a.calls| ==> a.calls[i] == calls[i];
    assert forall c :: c in a.calls ==> c in calls;
    assert forall r :: r in a.results ==> r in results;
  }

  lemma KeptMembers(results: seq<ToolResult>, env: Reading)
    ensures forall r :: r in AllKept(results, env) ==> exists s :: s in results && r == KeptForm(s, env)
    ensures forall s :: s in results ==> KeptForm(s, env) in AllKept(results, env)
  {
    hide ResultKey;
    forall s | s in results ensures KeptForm(s, env) in AllKept(results, env) {
      var i :| 0 <= i < |results| && results[i] == s;
      assert AllKept(results, env)[i] == KeptForm(s, env);
    }
  }

  lemma NextOfWellFormed(batches: seq<Batch>, env: Reading)
    requires batches != [] && WellFormed(batches)
    ensures var before, last := Merged(batches[..|batches| - 1]), batches[|batches| - 1];
            NextFits(before.calls, AllKept(before.results, env), Unanswered(before.calls, AllKept(before.results, env)),
                     Batch(last.calls, AllKept(last.results, env)))
  {
    var before, last := Merged(batches[..|batches| - 1]), batches[|batches| - 1];
    hide ResultKey, Unanswered, Merged;
    PrefixIsWellFormed(batches);
    assert WellFormed(batches);
    MergedIs(batches);
    WellFormedParts(before, last);
    KeptIsAlike(before.calls + last.calls, before.results + last.results, env);
    KeptIsAlike(last.calls, last.results, env);
    AllKeptConcat(before.results, last.results, env);
    KeptMembers(before.results, env);
    hide UniqueCalls, UniqueResults, Fits, OwnPlaces, AllUnmarked, NoneMarked;
    forall c, r | c in last.calls && r in AllKept(before.results, env) ensures c.callId != r.callId {
      var s :| s in before.results && r == KeptForm(s, env);
    }
  }

  lemma MergedIs(batches: seq<Batch>)
    requires batches != []
    ensures var before, last := Merged(batches[..|batches| - 1]), batches[|batches| - 1];
            Merged(batches).calls == before.calls + last.calls
                && Merged(batches).results == before.results + last.results
  {
  }

  /** The ids of calls whose result came in a later poll. */
  function LateIds(batches: seq<Batch>, env: Reading): set<Option<string>>
  {
    if batches == [] then {}
    else
      var init, last := batches[..|batches| - 1], batches[|batches| - 1];
      MoreLate(LateIds(init, env), Merged(init).calls, AllKept(last.results, env))
  }

  /** What holds between polls. */
  ghost predicate Explained(batches: seq<Batch>, env: Reading)
  {
    var all, live := Merged(batches), AllPolls(batches, env);
    var kept := AllKept(all.results, env);
    && live.pending == Unanswered(all.calls, kept)
    && (forall r :: r in live.recent ==> r in kept)
    && LateKnown(all.calls, kept, LateIds(batches, env))
    && (forall op :: op in live.stored <==> InStore(all.calls, kept, LateIds(batches, env), env, op))
  }

  lemma {:induction false} UnansweredKept(calls: seq<ToolCall>, results: seq<ToolResult>, env: Reading)
    ensures Unanswered(calls, AllKept(results, env)) == Unanswered(calls, results)
  {
    hide ResultKey;
    if calls != [] {
      var last := calls[|calls| - 1];
      UnansweredKept(calls[..|calls| - 1], results, env);
      KeptMembers(results, env);
      if r :| r in results && Answers(r, last) {
        assert Answers(KeptForm(r, env), last);
      }
    }
  }

  /** The recent results belong to other calls than the next ones, so nothing is marked. */
  lemma MarkedNext(before: Batch, last: Batch, recent: seq<ToolResult>, env: Reading)
    requires UniqueResults(before.results + last.results) && AllUnmarked(last.results)
    requires forall r :: r in recent ==> r in AllKept(before.results, env)
    ensures Marked(recent, last.results, env) == AllKept(last.results, env)
  {
    hide ResultKey, Marked;
    SuffixesAreUnique(before.results, last.results);
    KeptMembers(before.results, env);
    hide UniqueResults, AllUnmarked;
    forall p, r | p in recent && r in last.results ensures p.callId != r.callId {
      var s :| s in before.results && p == KeptForm(s, env);
    }
    MarkedIsKept(recent, last.results, env);
  }

  lemma UnansweredNext(before: Batch, last: Batch, env: Reading)
    requires forall c, r :: c in last.calls && r in before.results ==> c.callId != r.callId
    ensures Unanswered(Unanswered(before.calls, AllKept(before.results, env)) + last.calls,
                       AllKept(last.results, env)) ==
            Unanswered(before.calls + last.calls, AllKept(before.results + last.results, env))
  {
    hide ResultKey, Unanswered;
    var kept, more := AllKept(before.results, env), AllKept(last.results, env);
    AllKeptConcat(before.results, last.results, env);
    KeptMembers(before.results, env);
    UnansweredConcat(Unanswered(before.calls, kept), last.calls, more);
    UnansweredTwice(before.calls, kept, more);
    UnansweredAlike(last.calls, kept, more);
    UnansweredConcat(before.calls, last.calls, kept + more);
  }

  lemma PendingNext(before: Batch, last: Batch, env: Reading)
    requires forall c, r :: c in last.calls && r in before.results ==> c.callId != r.callId
    requires |Unanswered(before.calls + last.calls, before.results + last.results)| <= MAX_PENDING_TOOL_CALLS
    ensures NextPendingToolCalls(Unanswered(before.calls, AllKept(before.results, env)), last.calls,
        AllKept(last.results, env)) ==
            Unanswered(before.calls + last.calls, AllKept(before.results + last.results, env))
  {
    hide ResultKey, Unanswered;
    UnansweredNext(before, last, env);
    UnansweredKept(before.calls + last.calls, before.results + last.results, env);
  }

  lemma LateStaysKnown(calls: seq<ToolCall>, results: seq<ToolResult>, late: set<Option<string>>, next: Batch)
    requires LateKnown(calls, results, late)
    ensures LateKnown(calls + next.calls, results + next.results, MoreLate(late, calls, next.results))
  {
    hide FindCall, FindResult;
    forall id | id in MoreLate(late, calls, next.results)
      ensures FindCall(calls + next.calls, id).Some? && FindResult(results + next.results, id).Some?
    {
      FindCallConcat(calls, next.calls, id);
      FindResultConcat(results, next.results, id);
    }
  }

  lemma {:induction false} RunIsExplained(batches: seq<Batch>, env: Reading)
    requires WellFormed(batches) && FewPending(batches)
    ensures Explained(batches, env)
  {
    hide ResultKey, Unanswered, Merged, LateKnown, InStore, NextFits, Extract, Marked, NextPendingToolCalls, MoreLate,
         UniqueCalls, UniqueResults, AllUnmarked, Fits, OwnPlaces, NoResultBeforeItsCall, FewPending, AllKept;
    if batches == [] {
      NothingIsExplained(env);
    } else {
      var init, last := batches[..|batches| - 1], batches[|batches| - 1];
      PrefixIsWellFormed(batches);
      PrefixHasFewPending(batches);
      RunIsExplained(init, env);
      var before, live, late := Merged(init), AllPolls(init, env), LateIds(init, env);
      var kept, next := AllKept(before.results, env), Batch(last.calls, AllKept(last.results, env));
      MergedIs(batches);
      LastIsUnmarked(before, last);
      MarkedNext(before, last, live.recent, env);
      PendingNext(before, last, env);
      AllKeptConcat(before.results, last.results, env);
      NextOfWellFormed(batches, env);
      LateStaysKnown(before.calls, kept, late, next);
      forall op ensures op in AllPolls(batches, env).stored <==>
                        InStore(Merged(batches).calls, AllKept(Merged(batches).results, env), LateIds(batches, env),
                            env, op)
      {
        PollExplains(before.calls, kept, late, live.pending, next, env, op, op in live.stored);
      }
    }
  }

  lemma NothingIsExplained(env: Reading)
    ensures Explained([], env)
  {
  }

  lemma PrefixHasFewPending(batches: seq<Batch>)
    requires batches != [] && FewPending(batches)
    ensures FewPending(batches[..|batches| - 1])
    ensures |Unanswered(Merged(batches).calls, Merged(batches).results)| <= MAX_PENDING_TOOL_CALLS
  {
    hide Merged, Unanswered;
    var init := batches[..|batches| - 1];
    forall n | 0 <= n <= |init| ensures Waiting(init, n) <= MAX_PENDING_TOOL_CALLS {
      assert init[..n] == batches[..n];
      assert Waiting(batches, n) <= MAX_PENDING_TOOL_CALLS;
    }
    assert batches[..|batches|] == batches;
    assert Waiting(batches, |batches|) <= MAX_PENDING_TOOL_CALLS;
  }

  lemma LastIsUnmarked(before: Batch, last: Batch)
    requires AllUnmarked(before.results + last.results)
    ensures AllUnmarked(last.results)
  {
    assert (before.results + last.results)[|before.results|..] == last.results;
  }

  lemma AtOnceIs(batches: seq<Batch>, env: Reading, op: Operation)
    requires WellFormed(batches)
    ensures op in AtOnce(batches, env) <==>
        InBatch(Merged(batches).calls, AllKept(Merged(batches).results, env), env, op)
  {
    hide ResultKey, Unanswered, Merged, Extract, Marked, KeptOps, KeptResultOps, FailedOps, CallGives, ResultGives,
         UniqueCalls, UniqueResults, Fits, OwnPlaces, AllUnmarked, NoneMarked;
    var all := Merged(batches);
    MarkedIsKept([], all.results, env);
    KeptIsAlike(all.calls, all.results, env);
    var kept := AllKept(all.results, env);
    assert [] + all.calls == all.calls;
    ExtractIs([], all.calls, kept, env);
    KeptOpsMembers(all.calls, kept, env, op);
    KeptResultOpsMembers(kept, all.calls, env, op);
  }

  lemma {:induction false} FirstIsFresh(observed: seq<Observed>)
    requires observed != []
    ensures observed[0].operation in Fresh(observed, {})
  {
    if |observed| > 1 {
      FirstIsFresh(observed[..|observed| - 1]);
    }
  }

  lemma {:induction false} FindKept(results: seq<ToolResult>, id: Option<string>, env: Reading)
    ensures FindResult(AllKept(results, env), id) ==
            match FindResult(results, id) { case Some(r) => Some(KeptForm(r, env)) case None => None }
  {
    hide ResultKey;
    if results != [] {
      var n := |results| - 1;
      FindKept(results[..n], id, env);
      assert AllKept(results, env)[..n] == AllKept(results[..n], env);
    }
  }

  lemma KeptFailsAlike(c: ToolCall, r: ToolResult, env: Reading)
    ensures FailedWith(c, Some(KeptForm(r, env)), env) == FailedWith(c, Some(r), env)
  {
  }

  lemma LateNext(batches: seq<Batch>, env: Reading, id: Option<string>)
    requires batches != []
    ensures var init, last := batches[..|batches| - 1], batches[|batches| - 1];
            id in LateIds(batches, env) <==>
            || id in LateIds(init, env)
            || ((exists c :: c in Merged(init).calls && c.callId == id) && FindResult(last.results, id).Some?)
  {
    var init, last := batches[..|batches| - 1], batches[|batches| - 1];
    hide ResultKey, FindResult, Merged;
    FindKept(last.results, id, env);
  }

  lemma {:induction false} LaterIsLate(batches: seq<Batch>, env: Reading, i: nat, j: nat, c: ToolCall, r: ToolResult)
    requires ComesLater(batches, i, j, c, r)
    ensures c.callId in LateIds(batches, env)
  {
    hide LateIds, Merged, FindResult;
    var n := |batches| - 1;
    var init := batches[..n];
    LateNext(batches, env, c.callId);
    assert init[i] == batches[i];
    if j < n {
      assert init[j] == batches[j];
      LaterIsLate(init, env, i, j, c, r);
    } else {
      MergedMembers(init);
      assert c in Merged(init).calls;
    }
  }

  /** A late id is that of a call with a result in a later poll. */
  lemma {:induction false} LateComesLater(batches: seq<Batch>, env: Reading, id: Option<string>)
    returns (i: nat, j: nat, c: ToolCall, r: ToolResult)
    requires id in LateIds(batches, env)
    ensures ComesLater(batches, i, j, c, r) && c.callId == id
  {
    assert batches != [];
    hide LateIds, Merged, FindResult;
    var n := |batches| - 1;
    var init := batches[..n];
    LateNext(batches, env, id);
    if id in LateIds(init, env) {
      i, j, c, r := LateComesLater(init, env, id);
      assert init[i] == batches[i] && init[j] == batches[j];
    } else {
      MergedMembers(init);
      c :| c in Merged(init).calls && c.callId == id;
      i :| 0 <= i < n && c in init[i].calls;
      assert init[i] == batches[i];
      j, r := n, FindResult(batches[n].results, id).value;
    }
  }

  lemma KeptResultOfCall(batches: seq<Batch>, env: Reading, i: nat, j: nat, c: ToolCall, r: ToolResult)
    requires WellFormed(batches) && ComesLater(batches, i, j, c, r)
    ensures c in Merged(batches).calls
    ensures FindResult(AllKept(Merged(batches).results, env), c.callId) == Some(KeptForm(r, env))
  {
    hide ResultKey, Merged, FindResult;
    MergedMembers(batches);
    var all := Merged(batches);
    FindKept(all.results, c.callId, env);
    ResultsAreUnique(all.results, r, FindResult(all.results, c.callId).value);
  }

  /** What the store lacks of a call's operations, it lacks because the call recovered late. */
  lemma LackingMeansLateRecovery(batches: seq<Batch>, env: Reading, c: ToolCall, op: Operation)
    requires WellFormed(batches) && c in Merged(batches).calls
    ensures var kept := AllKept(Merged(batches).results, env);
            CallGives(c, kept, env, op) && !GivesLive(c, kept, LateIds(batches, env), env, op) ==>
              exists i, j, r :: RecoversLate(batches, i, j, c, r, env)
  {
    hide ResultKey, Merged, FindResult, WellFormed, StatusFails, CallOps, FailedWith, LateIds;
    var kept := AllKept(Merged(batches).results, env);
    if CallGives(c, kept, env, op) && !GivesLive(c, kept, LateIds(batches, env), env, op) {
      var i, j, d, r := LateComesLater(batches, env, c.callId);
      KeptResultOfCall(batches, env, i, j, d, r);
      WellFormedHasUniqueCalls(batches);
      CallsAreUnique(Merged(batches).calls, c, d);
      KeptFailsAlike(c, r, env);
      GivingCallNamesSomething(c, op);
      assert RecoversLate(batches, i, j, c, r, env);
    }
  }

  lemma LiveIsGiven(c: ToolCall, results: seq<ToolResult>, late: set<Option<string>>, env: Reading, op: Operation)
    ensures GivesLive(c, results, late, env, op) ==> CallGives(c, results, env, op)
  {
  }

  lemma WellFormedHasUniqueCalls(batches: seq<Batch>)
    requires WellFormed(batches)
    ensures UniqueCalls(Merged(batches).calls)
  {
  }

  lemma GivingCallNamesSomething(c: ToolCall, op: Operation)
    requires op in CallOps(c)
    ensures c.sessionId.Some? && c.targets != []
  {
    FreshIsPlain(CallOperations(c), {}, op);
  }

  /** An operation that only the reading at once keeps. */
  lemma LostOperation(batches: seq<Batch>, env: Reading, i: nat, j: nat, c: ToolCall, r: ToolResult)
    returns (op: Operation)
    requires WellFormed(batches) && RecoversLate(batches, i, j, c, r, env)
    ensures var all := Merged(batches);
            var kept := AllKept(all.results, env);
            InBatch(all.calls, kept, env, op) && !InStore(all.calls, kept, LateIds(batches, env), env, op)
  {
    hide ResultKey, Merged, FindResult, FindCall, StatusFails, CallOps, FailedWith, CallOperations, ResultOps, Skips,
         LateIds, WellFormed, ResultGives, CallGives;
    op := LostIsGiven(c);
    var all := Merged(batches);
    var kept := AllKept(all.results, env);
    KeptResultOfCall(batches, env, i, j, c, r);
    assert CallGives(c, kept, env, op) by { Gives(c, kept, r, env, op); }
    LaterIsLate(batches, env, i, j, c, r);
    OnlyItsCallGives(batches, env, c, op);
    hide ComesLater, RecoversLate;
    forall d | d in all.calls ensures !GivesLive(d, kept, LateIds(batches, env), env, op) {
      GivesOwn(d, kept, env, op);
    }
  }

  lemma Gives(c: ToolCall, kept: seq<ToolResult>, r: ToolResult, env: Reading, op: Operation)
    requires op in CallOps(c) && !FailedWith(c, Some(r), env) && FindResult(kept, c.callId) == Some(KeptForm(r, env))
    ensures CallGives(c, kept, env, op)
  {
    KeptFailsAlike(c, r, env);
  }

  lemma GivesOwn(c: ToolCall, results: seq<ToolResult>, env: Reading, op: Operation)
    ensures CallGives(c, results, env, op) ==> op in CallOps(c)
  {
  }

  lemma OnlyItsCallGives(batches: seq<Batch>, env: Reading, c: ToolCall, op: Operation)
    requires WellFormed(batches) && c in Merged(batches).calls && op in CallOps(c)
    ensures forall d :: d in Merged(batches).calls && op in CallOps(d) ==> d == c
    ensures forall s :: s in AllKept(Merged(batches).results, env) ==> !ResultGives(s, Merged(batches).calls, env, op)
  {
    hide ResultKey, Merged, FindCall, CallOps, CallOperations, ResultOps, Skips, UniqueCalls, UniqueResults, Fits,
         AllUnmarked, NoResultBeforeItsCall;
    var all := Merged(batches);
    var kept := AllKept(all.results, env);
    KeptIsAlike(all.calls, all.results, env);
    CallOpsHaveItsPlace(c, op);
    hide OwnPlaces;
    forall d | d in all.calls && op in CallOps(d) ensures d == c {
      CallOpsHaveItsPlace(d, op);
      SamePlace(all.calls, kept, c, d);
    }
    forall s | s in kept ensures !ResultGives(s, all.calls, env, op) {
      ResultOpsHaveItsPlace(s, FindCall(all.calls, s.callId), env, op);
      ResultsGiveOthers(all.calls, kept, c, s);
    }
  }

  lemma LostIsGiven(c: ToolCall) returns (op: Operation)
    requires c.sessionId.Some? && c.targets != []
    ensures op in CallOps(c)
  {
    op := CallOperations(c)[0].operation;
    FirstIsFresh(CallOperations(c));
  }

  lemma ResultsGiveOthers(calls: seq<ToolCall>, results: seq<ToolResult>, c: ToolCall, s: ToolResult)
    requires OwnPlaces(calls, results) && c in calls && s in results
    ensures c.provenance != s.provenance
  {
  }

  /** Polls and the reading at once leave the same operations exactly when no failed call recovers in a later poll. */
  lemma PollsEqualBatchIff(batches: seq<Batch>, env: Reading)
    requires WellFormed(batches) && FewPending(batches)
    ensures AllPolls(batches, env).stored == AtOnce(batches, env) <==>
            !exists i, j, c, r :: RecoversLate(batches, i, j, c, r, env)
  {
    hide ResultKey, Merged, AllPolls, AtOnce, RecoversLate, WellFormed, FewPending, LateIds, CallGives, GivesLive,
         ResultGives;
    RunIsExplained(batches, env);
    var all := Merged(batches);
    var kept := AllKept(all.results, env);
    if i: nat, j: nat, c, r :| RecoversLate(batches, i, j, c, r, env) {
      var op := LostOperation(batches, env, i, j, c, r);
      AtOnceIs(batches, env, op);
    } else {
      forall op ensures op in AllPolls(batches, env).stored <==> op in AtOnce(batches, env) {
        AtOnceIs(batches, env, op);
        forall c | c in all.calls
          ensures CallGives(c, kept, env, op) <==> GivesLive(c, kept, LateIds(batches, env), env, op)
        {
          LackingMeansLateRecovery(batches, env, c, op);
          LiveIsGiven(c, kept, LateIds(batches, env), env, op);
        }
      }
    }
  }

  /**
   * A call that failed by its own status, and one poll later its result saying otherwise: the polls lose what it named.
   */
  lemma LateRecoveryLosesOperations(c: ToolCall, r: ToolResult, env: Reading)
    requires c.callId.Some? && r.callId == c.callId && ContextsCompatible(c, r) && c.provenance != r.provenance
        && IsUnmarked(r)
    requires StatusFails(c.status, env) && !FailedWith(c, Some(r), env) && c.sessionId.Some? && c.targets != []
    ensures var batches := [Batch([c], []), Batch([], [r])];
            WellFormed(batches) && FewPending(batches) && AllPolls(batches, env).stored != AtOnce(batches, env)
  {
    hide AllPolls, AtOnce, WellFormed, FewPending, StatusFails, FailedWith, ContextsCompatible, IsUnmarked;
    var batches := [Batch([c], []), Batch([], [r])];
    OneCallThenItsResult(c, r);
    assert RecoversLate(batches, 0, 1, c, r, env);
    PollsEqualBatchIff(batches, env);
  }

  /** Such a call and result: a failed edit whose exit code, read one poll later, is zero. */
  lemma LateRecoveryHappens()
    ensures exists batches, env ::
        WellFormed(batches) && FewPending(batches) && AllPolls(batches, env).stored != AtOnce(batches, env)
  {
    hide AllPolls, AtOnce, WellFormed, FewPending;
    var env := Reading(s => s == "failed", (r, m) => [], parts => "");
    var c := ToolCall(Some("1"), Some("s"), None, Some("failed"), [Target("a.txt", "/a.txt", "edit")],
        Provenance("log", 1));
    var r := ToolResult(Some("1"), Some("s"), None, None, None, None, None, None, Some(0), None, Succeeded,
        FromExitCode,
                        None, None, false, Provenance("log", 2));
    LateRecoveryLosesOperations(c, r, env);
  }

  lemma OneCallThenItsResult(c: ToolCall, r: ToolResult)
    requires c.callId.Some? && r.callId == c.callId && ContextsCompatible(c, r) && c.provenance != r.provenance
        && IsUnmarked(r)
    ensures var batches := [Batch([c], []), Batch([], [r])]; WellFormed(batches) && FewPending(batches)
  {
    hide Unanswered, ContextsCompatible, IsUnmarked;
    var batches := [Batch([c], []), Batch([], [r])];
    MergedOfTwo(batches);
    hide Merged;
    assert [c] + [] == [c] && [] + [r] == [r];
    forall n | 0 <= n <= 2 ensures |Unanswered(Merged(batches[..n]).calls, Merged(batches[..n]).results)| <= 1 {
      assert n == 2 ==> batches[..n] == batches;
      UnansweredIsShorter(Merged(batches[..n]).calls, Merged(batches[..n]).results);
    }
  }

  lemma MergedOfTwo(batches: seq<Batch>)
    requires |batches| == 2
    ensures Merged(batches[..0]) == Batch([], []) && Merged(batches[..1]) == batches[0]
    ensures Merged(batches) == Batch(batches[0].calls + batches[1].calls, batches[0].results + batches[1].results)
  {
    assert batches[..1][..0] == [] && batches[..1][0] == batches[0];
    assert [] + batches[0].calls == batches[0].calls && [] + batches[0].results == batches[0].results;
  }

  lemma {:induction false} UnansweredIsShorter(calls: seq<ToolCall>, results: seq<ToolResult>)
    ensures |Unanswered(calls, results)| <= |calls|
  {
    if calls != [] {
      UnansweredIsShorter(calls[..|calls| - 1], results);
    }
  }
}
