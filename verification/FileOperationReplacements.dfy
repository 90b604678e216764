/** When the operations of a log are the same for polls and one run although its state session was replaced between. */
module FileOperationReplacements {
  import opened Wrappers
  import opened Slices
  import opened Correlation
  import opened Duplicates
  import opened FileOperations
  import opened FileOperationSets
  import opened FileOperationRuns
  import opened FileOperationRekeys

  // ---- The logs compared ----

  ghost predicate ResultPlaces(results: seq<ToolResult>)
  {
    forall i, j :: 0 <= i < j < |results| ==> results[i].provenance != results[j].provenance
  }

  /** The log as the polls read it, and everything one run over it needs to be compared with them. */
  ghost predicate Comparable(early: seq<Batch>, later: seq<Batch>, k: Rekey)
  {
    var all := Merged(Final(early, later, k));
    && Replaces(early, later, k) && WellFormed(Final(early, later, k)) && FewWaiting(early, later)
    && ResultPlaces(all.results)
  }

  lemma ComparableParts(early: seq<Batch>, later: seq<Batch>, k: Rekey)
    requires Comparable(early, later, k)
    ensures Parts(early, later, k) && WellFormed(RenamedBatches(early, k)) && FewPending(later)
    ensures var a, b, all := Merged(RenamedBatches(early, k)), Merged(later), Merged(Final(early, later, k));
            all == Batch(a.calls + b.calls, a.results + b.results)
            && forall c, r :: c in b.calls && r in a.results ==> c.callId != r.callId
  {
    var renamed := RenamedBatches(early, k);
    hide Merged, Unanswered, Waiting;
    WellFormedSplit(renamed, later);
    MergedConcat(renamed, later);
    MergedRenamed(early, k);
    RenamedIsWellFormed(early, k);
    LaterHasFewPending(early, later, |later|);
    assert later[..|later|] == later;
    hide WellFormed, FewPending;
    var a, b := Merged(early), Merged(later);
    RowsOfParts(a, b, k) by {
      assert WellFormed(Final(early, later, k));
      FinalRows(early, later, k);
    }
  }

  lemma FinalRows(early: seq<Batch>, later: seq<Batch>, k: Rekey)
    requires WellFormed(Final(early, later, k))
    ensures var a, b := Merged(early), Merged(later);
            UniqueResults(RenamedResults(a.results, k) + b.results)
            && OwnPlaces(RenamedCalls(a.calls, k) + b.calls, RenamedResults(a.results, k) + b.results)
  {
    MergedConcat(RenamedBatches(early, k), later);
    MergedRenamed(early, k);
    hide Merged;
  }

  lemma RowsOfParts(a: Batch, b: Batch, k: Rekey)
    requires UniqueResults(RenamedResults(a.results, k) + b.results)
    requires OwnPlaces(RenamedCalls(a.calls, k) + b.calls, RenamedResults(a.results, k) + b.results)
    ensures UniqueResults(a.results + b.results) && OwnPlaces(a.calls + b.calls, a.results + b.results)
  {
    var cs, rs := RenamedCalls(a.calls, k) + b.calls, RenamedResults(a.results, k) + b.results;
    var calls, results := a.calls + b.calls, a.results + b.results;
    assert forall i :: 0 <= i < |calls| ==> cs[i].provenance == calls[i].provenance;
    assert forall i :: 0 <= i < |results| ==>
        rs[i].provenance == results[i].provenance && rs[i].callId == results[i].callId;
    forall c, r | c in calls && r in results ensures c.provenance != r.provenance {
      var i :| 0 <= i < |calls| && calls[i] == c;
      var j :| 0 <= j < |results| && results[j] == r;
      assert cs[i] in cs && rs[j] in rs;
    }
  }

  lemma EnteringIsAll(early: seq<Batch>, later: seq<Batch>, k: Rekey, env: Reading)
    requires later != []
    ensures Entering(early, later, k, |later|, env) == RekeyedPolls(early + later, k, env)
  {
    hide RekeyedPolls;
    assert later[..|later|] == later;
  }

  /** Under the new session: what is stored is what the two parts of the log leave by themselves. */
  lemma StoredIsBoth(early: seq<Batch>, later: seq<Batch>, k: Rekey, env: Reading)
    requires Comparable(early, later, k) && Blind(env)
    ensures RekeyedPolls(early + later, k, env).stored ==
            AllPolls(RenamedBatches(early, k), env).stored + AllPolls(later, env).stored
  {
    assert later != [] && k.from != k.to && AllUnder(early, k.from) && FewPending(early);
    ComparableParts(early, later, k);
    hide Merged, Waiting, WellFormed, FewPending, Blind, AllPolls, RekeyedPolls, AllKept, Comparable, AllUnder, Parts,
         RenamedOps, RenamedBatches, Entering, Unanswered;
    TwoRuns(early, later, k, |later|, env);
    EnteringIsAll(early, later, k, env);
    EarlyUnderNew(early, k, env);
    assert later[..|later|] == later;
  }

  /** What a result adds, beside the call it is matched with or alone. */
  function GivenBy(r: ToolResult, m: Option<ToolCall>, env: Reading): set<Operation>
  {
    if Skips(r, m, env) then {} else AsSet(ResultOps(KeptForm(r, env), m, env))
  }

  /** A call that waits when the session is replaced, and its result. */
  ghost predicate Crosses(early: seq<Batch>, later: seq<Batch>, k: Rekey, c: ToolCall, r: ToolResult)
  {
    c in Merged(RenamedBatches(early, k)).calls && r in Merged(later).results && r.callId == c.callId
  }

  /** Matched with its call the result says otherwise about the call, or adds other operations, than alone. */
  ghost predicate MatchingMatters(c: ToolCall, r: ToolResult, env: Reading)
  {
    || (c.sessionId.Some? && c.targets != [] && StatusFails(c.status, env) != FailedWith(c, Some(r), env))
    || GivenBy(r, None, env) != GivenBy(r, Some(c), env)
  }

  lemma KeptSkipsAlike(r: ToolResult, m: Option<ToolCall>, env: Reading)
    ensures Skips(KeptForm(r, env), m, env) == Skips(r, m, env)
  {
  }

  /** The rows of a log in two parts, none of the later calls with a result in the earlier part. */
  ghost predicate TwoParts(a: Batch, b: Batch)
  {
    var all := Batch(a.calls + b.calls, a.results + b.results);
    && UniqueCalls(all.calls) && UniqueResults(all.results) && OwnPlaces(all.calls, all.results)
    && ResultPlaces(all.results)
    && forall c, r :: c in b.calls && r in a.results ==> c.callId != r.callId
  }

  lemma EarlyCallGives(a: Batch, b: Batch, c: ToolCall, late: set<Option<string>>, env: Reading, op: Operation)
    requires TwoParts(a, b) && c in a.calls && LateKnown(a.calls, AllKept(a.results, env), late)
    ensures var found, all := FindResult(b.results, c.callId), AllKept(a.results + b.results, env);
            && (found.None? ==> CallGives(c, all, env, op) == CallGives(c, AllKept(a.results, env), env, op))
            && (found.Some? ==>
                  && CallGives(c, all, env, op) == (op in CallOps(c) && !FailedWith(c, found, env))
                  && GivesLive(c, AllKept(a.results, env), late, env, op) ==
                     (op in CallOps(c) && !StatusFails(c.status, env)))
  {
    hide FindResult, ResultKey, CallOps, OwnPlaces, AllKept, UniqueCalls;
    FindKept(a.results, c.callId, env);
    FindKept(a.results + b.results, c.callId, env);
    FindResultConcat(a.results, b.results, c.callId);
    var found := FindResult(b.results, c.callId);
    if found.Some? {
      KeptFailsAlike(c, found.value, env);
      SuffixesAreUnique(a.results, b.results);
      assert FindResult(a.results, c.callId).None?;
    }
  }

  lemma LaterCallGives(a: Batch, b: Batch, c: ToolCall, env: Reading, op: Operation)
    requires TwoParts(a, b) && c in b.calls
    ensures CallGives(c, AllKept(a.results + b.results, env), env, op) == CallGives(c, AllKept(b.results, env), env, op)
  {
    hide FindResult, ResultKey, CallOps, OwnPlaces, AllKept, UniqueCalls, UniqueResults;
    FindKept(b.results, c.callId, env);
    FindKept(a.results + b.results, c.callId, env);
    FindResultConcat(a.results, b.results, c.callId);
  }

  lemma EarlyResultGives(a: Batch, b: Batch, r: ToolResult, env: Reading, op: Operation)
    requires TwoParts(a, b) && r in a.results
    ensures ResultGives(KeptForm(r, env), a.calls + b.calls, env, op) == ResultGives(KeptForm(r, env), a.calls, env, op)
  {
    hide FindCall, ResultKey, ResultOps, Skips, OwnPlaces, UniqueCalls, UniqueResults;
    FindCallConcat(a.calls, b.calls, r.callId);
  }

  lemma LaterResultGives(a: Batch, b: Batch, r: ToolResult, env: Reading, op: Operation)
    requires TwoParts(a, b) && r in b.results
    ensures var kept, found := KeptForm(r, env), FindCall(a.calls, r.callId);
            && (found.None? ==> ResultGives(kept, a.calls + b.calls, env, op) == ResultGives(kept, b.calls, env, op))
            && (found.Some? ==>
                  && (ResultGives(kept, a.calls + b.calls, env, op) <==> op in GivenBy(r, found, env))
                  && (ResultGives(kept, b.calls, env, op) <==> op in GivenBy(r, None, env)))
  {
    hide FindCall, ResultKey, ResultOps, Skips, OwnPlaces, UniqueResults;
    FindCallConcat(a.calls, b.calls, r.callId);
    var found := FindCall(a.calls, r.callId);
    KeptSkipsAlike(r, found, env);
    KeptSkipsAlike(r, None, env);
    if found.Some? {
      DistinctIds(a.calls, b.calls, found.value);
      assert FindCall(b.calls, r.callId).None?;
    }
  }

  lemma DistinctIds(a: seq<ToolCall>, b: seq<ToolCall>, c: ToolCall)
    requires UniqueCalls(a + b) && c in a
    ensures forall d :: d in b ==> d.callId != c.callId
  {
    var i :| 0 <= i < |a| && a[i] == c;
    forall d | d in b ensures d.callId != c.callId {
      var j :| 0 <= j < |b| && b[j] == d;
      assert (a + b)[i] == c && (a + b)[|a| + j] == d;
    }
  }

  // ---- One place, one row ----

  lemma AtCall(calls: seq<ToolCall>, results: seq<ToolResult>, c: ToolCall, late: set<Option<string>>, env: Reading,
               op: Operation)
    requires OwnPlaces(calls, results) && c in calls && op.provenance == c.provenance
    ensures InBatch(calls, results, env, op) <==> CallGives(c, results, env, op)
    ensures InStore(calls, results, late, env, op) <==> GivesLive(c, results, late, env, op)
  {
    hide FindCall, FindResult, FailedWith, CallOps, ResultOps, Skips, StatusFails, OwnPlaces;
    forall d | d in calls && CallGives(d, results, env, op) ensures d == c {
      CallOpsHaveItsPlace(d, op);
      SamePlace(calls, results, c, d);
    }
    forall r | r in results ensures !ResultGives(r, calls, env, op) {
      ResultOpsHaveItsPlace(r, FindCall(calls, r.callId), env, op);
      ResultsGiveOthers(calls, results, c, r);
    }
  }

  lemma AtResult(calls: seq<ToolCall>, results: seq<ToolResult>, r: ToolResult, late: set<Option<string>>, env: Reading,
                 op: Operation)
    requires OwnPlaces(calls, results) && ResultPlaces(results) && r in results && op.provenance == r.provenance
    ensures InBatch(calls, results, env, op) <==> ResultGives(r, calls, env, op)
    ensures InStore(calls, results, late, env, op) <==> ResultGives(r, calls, env, op)
  {
    hide FindCall, FindResult, FailedWith, CallOps, ResultOps, Skips, StatusFails, OwnPlaces, ResultPlaces;
    forall d | d in calls ensures !CallGives(d, results, env, op) {
      CallOpsHaveItsPlace(d, op);
      ResultsGiveOthers(calls, results, d, r);
    }
    forall s | s in results && ResultGives(s, calls, env, op) ensures s == r {
      ResultOpsHaveItsPlace(s, FindCall(calls, s.callId), env, op);
      SameResultPlace(results, r, s);
    }
  }

  lemma SameResultPlace(results: seq<ToolResult>, r: ToolResult, s: ToolResult)
    requires ResultPlaces(results) && r in results && s in results && r.provenance == s.provenance
    ensures r == s
  {
  }

  lemma NotHere(calls: seq<ToolCall>, results: seq<ToolResult>, late: set<Option<string>>, env: Reading, op: Operation)
    requires forall c :: c in calls ==> c.provenance != op.provenance
    requires forall r :: r in results ==> r.provenance != op.provenance
    ensures !InStore(calls, results, late, env, op)
  {
    hide InStore;
    if InStore(calls, results, late, env, op) {
      InStoreStems(calls, results, late, env, op);
    }
  }

  // ---- Both readings, row by row ----

  ghost predicate SameForCall(a: Batch, b: Batch, c: ToolCall, late: set<Option<string>>, own: seq<ToolResult>,
                              env: Reading, op: Operation)
  {
    GivesLive(c, AllKept(own, env), late, env, op) <==> CallGives(c, AllKept(a.results + b.results, env), env, op)
  }

  ghost predicate SameForResult(a: Batch, b: Batch, r: ToolResult, own: seq<ToolCall>, env: Reading, op: Operation)
  {
    ResultGives(KeptForm(r, env), own, env, op) <==> ResultGives(KeptForm(r, env), a.calls + b.calls, env, op)
  }

  /** Stored after both parts, under the late ids of each. */
  ghost predicate InEither(a: Batch, b: Batch, lateA: set<Option<string>>, lateB: set<Option<string>>, env: Reading,
                           op: Operation)
  {
    InStore(a.calls, AllKept(a.results, env), lateA, env, op)
        || InStore(b.calls, AllKept(b.results, env), lateB, env, op)
  }

  ghost predicate AtOnceBoth(a: Batch, b: Batch, env: Reading, op: Operation)
  {
    InBatch(a.calls + b.calls, AllKept(a.results + b.results, env), env, op)
  }

  lemma InKept(results: seq<ToolResult>, calls: seq<ToolCall>, env: Reading, op: Operation)
    ensures (exists r :: r in AllKept(results, env) && ResultGives(r, calls, env, op)) <==>
            exists r :: r in results && ResultGives(KeptForm(r, env), calls, env, op)
  {
    hide ResultGives, KeptForm;
    KeptMembers(results, env);
  }

  lemma RowByRow(a: Batch, b: Batch, lateA: set<Option<string>>, lateB: set<Option<string>>, env: Reading,
                 op: Operation)
    requires forall c :: c in a.calls ==> SameForCall(a, b, c, lateA, a.results, env, op)
    requires forall c :: c in b.calls ==> SameForCall(a, b, c, lateB, b.results, env, op)
    requires forall r :: r in a.results ==> SameForResult(a, b, r, a.calls, env, op)
    requires forall r :: r in b.results ==> SameForResult(a, b, r, b.calls, env, op)
    ensures InEither(a, b, lateA, lateB, env, op) <==> AtOnceBoth(a, b, env, op)
  {
    hide GivesLive, CallGives, ResultGives, KeptForm, AllKept;
    var calls, results := a.calls + b.calls, a.results + b.results;
    InKept(a.results, a.calls, env, op);
    InKept(b.results, b.calls, env, op);
    InKept(results, calls, env, op);
    assert forall c :: c in calls <==> c in a.calls || c in b.calls;
    assert forall r :: r in results <==> r in a.results || r in b.results;
    BothByRow(a, b, lateA, lateB, env, op);
  }

  lemma BothByRow(a: Batch, b: Batch, lateA: set<Option<string>>, lateB: set<Option<string>>, env: Reading,
                  op: Operation)
    ensures InEither(a, b, lateA, lateB, env, op) <==>
            || (exists c :: c in a.calls && GivesLive(c, AllKept(a.results, env), lateA, env, op))
            || (exists r :: r in a.results && ResultGives(KeptForm(r, env), a.calls, env, op))
            || (exists c :: c in b.calls && GivesLive(c, AllKept(b.results, env), lateB, env, op))
            || (exists r :: r in b.results && ResultGives(KeptForm(r, env), b.calls, env, op))
  {
    hide GivesLive, ResultGives, KeptForm, AllKept;
    InKept(a.results, a.calls, env, op);
    InKept(b.results, b.calls, env, op);
  }

  /** Whether anything makes a difference: a late recovery in either part, or a call across whose result matters. */
  ghost predicate Differs(early: seq<Batch>, later: seq<Batch>, k: Rekey, env: Reading)
  {
    || (exists i, j, c, r :: RecoversLate(RenamedBatches(early, k), i, j, c, r, env))
    || (exists i, j, c, r :: RecoversLate(later, i, j, c, r, env))
    || exists c, r :: Crosses(early, later, k, c, r) && MatchingMatters(c, r, env)
  }

  /** A call whose result, if any, comes in its own part. */
  lemma OwnPartAlike(batches: seq<Batch>, c: ToolCall, env: Reading, op: Operation)
    requires WellFormed(batches) && c in Merged(batches).calls
    requires !exists i, j, d, r :: RecoversLate(batches, i, j, d, r, env)
    ensures var kept := AllKept(Merged(batches).results, env);
            GivesLive(c, kept, LateIds(batches, env), env, op) <==> CallGives(c, kept, env, op)
  {
    hide ResultKey, Merged, WellFormed, LateIds, GivesLive, CallGives, RecoversLate;
    LackingMeansLateRecovery(batches, env, c, op);
    LiveIsGiven(c, AllKept(Merged(batches).results, env), LateIds(batches, env), env, op);
  }

  lemma NamesNothing(c: ToolCall, op: Operation)
    ensures op in CallOps(c) ==> c.sessionId.Some? && c.targets != []
  {
    if op in CallOps(c) {
      GivingCallNamesSomething(c, op);
    }
  }

  lemma CrossingIsIgnored(a: Batch, b: Batch, c: ToolCall, late: set<Option<string>>, env: Reading, op: Operation)
    requires TwoParts(a, b) && c in a.calls && LateKnown(a.calls, AllKept(a.results, env), late)
    requires var found := FindResult(b.results, c.callId); found.Some? && !MatchingMatters(c, found.value, env)
    ensures SameForCall(a, b, c, late, a.results, env, op)
  {
    hide FindResult, ResultKey, CallOps, AllKept, TwoParts, LateKnown, FailedWith, StatusFails, GivenBy, CallGives,
         GivesLive;
    EarlyCallGives(a, b, c, late, env, op);
    NamesNothing(c, op);
  }

  lemma CrossingResultIsIgnored(a: Batch, b: Batch, r: ToolResult, env: Reading, op: Operation)
    requires TwoParts(a, b) && r in b.results
    requires var found := FindCall(a.calls, r.callId); found.Some? ==> !MatchingMatters(found.value, r, env)
    ensures SameForResult(a, b, r, b.calls, env, op)
  {
    hide FindCall, KeptForm, TwoParts, FailedWith, StatusFails, GivenBy, ResultGives;
    LaterResultGives(a, b, r, env, op);
  }

  lemma ComparableIsTwoParts(early: seq<Batch>, later: seq<Batch>, k: Rekey)
    requires Comparable(early, later, k)
    ensures TwoParts(Merged(RenamedBatches(early, k)), Merged(later))
    ensures WellFormed(RenamedBatches(early, k)) && FewPending(RenamedBatches(early, k)) && WellFormed(later)
            && FewPending(later)
  {
    hide Merged, Unanswered, Waiting;
    ComparableParts(early, later, k);
    RenamedHasFewPending(early, k);
  }

  /** Nothing differs for any row, so nothing differs. */
  lemma NothingDiffers(early: seq<Batch>, later: seq<Batch>, k: Rekey, env: Reading, op: Operation)
    requires Comparable(early, later, k) && !Differs(early, later, k, env)
    ensures var a, b := Merged(RenamedBatches(early, k)), Merged(later);
            InEither(a, b, LateIds(RenamedBatches(early, k), env), LateIds(later, env), env, op) <==>
            AtOnceBoth(a, b, env, op)
  {
    var renamed := RenamedBatches(early, k);
    var a, b, lateA, lateB := Merged(renamed), Merged(later), LateIds(renamed, env), LateIds(later, env);
    hide Merged, ResultKey, RenamedBatches, Comparable, WellFormed, FewPending, LateIds, RecoversLate, MatchingMatters,
         TwoParts, CallGives, GivesLive, ResultGives, KeptForm, AllKept, InStore, InBatch, LateKnown, AllPolls,
         FindCall, FindResult, Unanswered;
    ComparableIsTwoParts(early, later, k);
    RunIsExplained(renamed, env);
    forall c | c in a.calls ensures SameForCall(a, b, c, lateA, a.results, env, op) {
      var found := FindResult(b.results, c.callId);
      if found.Some? {
        assert Crosses(early, later, k, c, found.value);
        CrossingIsIgnored(a, b, c, lateA, env, op);
      } else {
        EarlyCallGives(a, b, c, lateA, env, op);
        OwnPartAlike(renamed, c, env, op);
      }
    }
    forall c | c in b.calls ensures SameForCall(a, b, c, lateB, b.results, env, op) {
      LaterCallGives(a, b, c, env, op);
      OwnPartAlike(later, c, env, op);
    }
    forall r | r in a.results ensures SameForResult(a, b, r, a.calls, env, op) {
      EarlyResultGives(a, b, r, env, op);
    }
    forall r | r in b.results ensures SameForResult(a, b, r, b.calls, env, op) {
      var found := FindCall(a.calls, r.callId);
      if found.Some? {
        assert Crosses(early, later, k, found.value, r);
      }
      CrossingResultIsIgnored(a, b, r, env, op);
    }
    RowByRow(a, b, lateA, lateB, env, op);
  }

  // ---- What makes a difference ----

  lemma PlacesApart(a: Batch, b: Batch)
    requires TwoParts(a, b)
    ensures OwnPlaces(a.calls, a.results) && OwnPlaces(b.calls, b.results)
    ensures ResultPlaces(a.results) && ResultPlaces(b.results)
    ensures forall c, d :: c in a.calls && d in b.calls ==> c.provenance != d.provenance
    ensures forall c, r :: c in a.calls && r in b.results ==> c.provenance != r.provenance
    ensures forall c, r :: c in b.calls && r in a.results ==> c.provenance != r.provenance
    ensures forall r, s :: r in a.results && s in b.results ==> r.provenance != s.provenance
  {
    var calls, results := a.calls + b.calls, a.results + b.results;
    assert OwnPlaces(calls, results) && ResultPlaces(results);
    hide TwoParts;
    ResultsApart(a.results, b.results);
    CallsApart(a.calls, b.calls, results);
    assert forall c :: c in a.calls || c in b.calls ==> c in calls;
    assert forall r :: r in a.results || r in b.results ==> r in results;
  }

  lemma ResultsApart(a: seq<ToolResult>, b: seq<ToolResult>)
    requires ResultPlaces(a + b)
    ensures ResultPlaces(a) && ResultPlaces(b)
    ensures forall r, s :: r in a && s in b ==> r.provenance != s.provenance
  {
    var all := a + b;
    assert forall i :: 0 <= i < |a| ==> all[i] == a[i];
    assert forall i :: 0 <= i < |b| ==> all[|a| + i] == b[i];
    forall r, s | r in a && s in b ensures r.provenance != s.provenance {
      var i :| 0 <= i < |a| && a[i] == r;
      var j :| 0 <= j < |b| && b[j] == s;
      assert all[i] == r && all[|a| + j] == s;
    }
  }

  lemma CallsApart(a: seq<ToolCall>, b: seq<ToolCall>, results: seq<ToolResult>)
    requires OwnPlaces(a + b, results)
    ensures forall i, j :: 0 <= i < j < |a| ==> a[i].provenance != a[j].provenance
    ensures forall i, j :: 0 <= i < j < |b| ==> b[i].provenance != b[j].provenance
    ensures forall c, d :: c in a && d in b ==> c.provenance != d.provenance
  {
    var all := a + b;
    assert forall i :: 0 <= i < |a| ==> all[i] == a[i];
    assert forall i :: 0 <= i < |b| ==> all[|a| + i] == b[i];
    forall c, d | c in a && d in b ensures c.provenance != d.provenance {
      var i :| 0 <= i < |a| && a[i] == c;
      var j :| 0 <= j < |b| && b[j] == d;
      assert all[i] == c && all[|a| + j] == d;
    }
  }

  lemma KeptPlaces(calls: seq<ToolCall>, results: seq<ToolResult>, env: Reading)
    ensures OwnPlaces(calls, results) ==> OwnPlaces(calls, AllKept(results, env))
    ensures ResultPlaces(results) ==> ResultPlaces(AllKept(results, env))
  {
    hide ResultKey;
    KeptIsAlike(calls, results, env);
  }

  /** An operation in the place of an earlier call. */
  lemma AtEarlyCall(a: Batch, b: Batch, c: ToolCall, lateA: set<Option<string>>, lateB: set<Option<string>>,
                    env: Reading, op: Operation)
    requires TwoParts(a, b) && c in a.calls && op.provenance == c.provenance
    ensures InEither(a, b, lateA, lateB, env, op) <==> GivesLive(c, AllKept(a.results, env), lateA, env, op)
    ensures AtOnceBoth(a, b, env, op) <==> CallGives(c, AllKept(a.results + b.results, env), env, op)
  {
    assert OwnPlaces(a.calls + b.calls, a.results + b.results);
    PlacesApart(a, b);
    hide TwoParts, ResultKey, GivesLive, CallGives, InStore, InBatch, AllKept, OwnPlaces, ResultPlaces;
    KeptPlaces(a.calls, a.results, env);
    KeptPlaces(a.calls + b.calls, a.results + b.results, env);
    AtCall(a.calls, AllKept(a.results, env), c, lateA, env, op);
    AtCall(a.calls + b.calls, AllKept(a.results + b.results, env), c, lateA, env, op);
    KeptMembers(b.results, env);
    NotHere(b.calls, AllKept(b.results, env), lateB, env, op);
  }

  /** An operation in the place of a later call. */
  lemma AtLaterCall(a: Batch, b: Batch, c: ToolCall, lateA: set<Option<string>>, lateB: set<Option<string>>,
                    env: Reading, op: Operation)
    requires TwoParts(a, b) && c in b.calls && op.provenance == c.provenance
    ensures InEither(a, b, lateA, lateB, env, op) <==> GivesLive(c, AllKept(b.results, env), lateB, env, op)
    ensures AtOnceBoth(a, b, env, op) <==> CallGives(c, AllKept(a.results + b.results, env), env, op)
  {
    assert OwnPlaces(a.calls + b.calls, a.results + b.results);
    PlacesApart(a, b);
    hide TwoParts, ResultKey, GivesLive, CallGives, InStore, InBatch, AllKept, OwnPlaces, ResultPlaces;
    KeptPlaces(b.calls, b.results, env);
    KeptPlaces(a.calls + b.calls, a.results + b.results, env);
    AtCall(b.calls, AllKept(b.results, env), c, lateB, env, op);
    AtCall(a.calls + b.calls, AllKept(a.results + b.results, env), c, lateB, env, op);
    KeptMembers(a.results, env);
    NotHere(a.calls, AllKept(a.results, env), lateA, env, op);
  }

  /** An operation in the place of a later result. */
  lemma AtLaterResult(a: Batch, b: Batch, r: ToolResult, lateA: set<Option<string>>, lateB: set<Option<string>>,
                      env: Reading, op: Operation)
    requires TwoParts(a, b) && r in b.results && op.provenance == r.provenance
    ensures InEither(a, b, lateA, lateB, env, op) <==> ResultGives(KeptForm(r, env), b.calls, env, op)
    ensures AtOnceBoth(a, b, env, op) <==> ResultGives(KeptForm(r, env), a.calls + b.calls, env, op)
  {
    assert OwnPlaces(a.calls + b.calls, a.results + b.results) && ResultPlaces(a.results + b.results);
    PlacesApart(a, b);
    assert KeptForm(r, env).provenance == r.provenance;
    hide TwoParts, ResultKey, ResultGives, InStore, InBatch, AllKept, OwnPlaces, ResultPlaces, KeptForm;
    KeptPlaces(b.calls, b.results, env);
    KeptPlaces(a.calls + b.calls, a.results + b.results, env);
    KeptMembers(b.results, env);
    KeptMembers(a.results + b.results, env);
    AtResult(b.calls, AllKept(b.results, env), KeptForm(r, env), lateB, env, op);
    AtResult(a.calls + b.calls, AllKept(a.results + b.results, env), KeptForm(r, env), lateB, env, op);
    PlacesKept(a.results, env, op, r);
    NotHere(a.calls, AllKept(a.results, env), lateA, env, op);
  }

  lemma PlacesKept(results: seq<ToolResult>, env: Reading, op: Operation, r: ToolResult)
    requires op.provenance == r.provenance && forall s :: s in results ==> s.provenance != r.provenance
    ensures forall s :: s in AllKept(results, env) ==> s.provenance != op.provenance
  {
    hide ResultKey;
    KeptMembers(results, env);
  }

  /** The call whose operation only the reading at once keeps. */
  lemma LostFromCall(batches: seq<Batch>, env: Reading, i: nat, j: nat, d: ToolCall, r: ToolResult)
    returns (c: ToolCall, op: Operation)
    requires WellFormed(batches) && RecoversLate(batches, i, j, d, r, env)
    ensures var kept := AllKept(Merged(batches).results, env);
            && c in Merged(batches).calls && CallGives(c, kept, env, op) && op.provenance == c.provenance
            && !GivesLive(c, kept, LateIds(batches, env), env, op)
            && FindResult(Merged(batches).results, c.callId).Some?
  {
    hide ResultKey, Merged, WellFormed, LateIds, RecoversLate, ResultGives, FindResult, CallOps, FailedWith,
         StatusFails;
    op := LostOperation(batches, env, i, j, d, r);
    var all := Merged(batches);
    var kept := AllKept(all.results, env);
    c :| c in all.calls && CallGives(c, kept, env, op);
    CallOpsHaveItsPlace(c, op);
    assert c.callId in LateIds(batches, env);
    var a, b, e, s := LateComesLater(batches, env, c.callId);
    KeptResultOfCall(batches, env, a, b, e, s);
    FindKept(all.results, c.callId, env);
  }

  lemma EarlyRecoveryDiffers(early: seq<Batch>, later: seq<Batch>, k: Rekey, env: Reading, i: nat, j: nat, d: ToolCall,
                             s: ToolResult) returns (op: Operation)
    requires Comparable(early, later, k) && RecoversLate(RenamedBatches(early, k), i, j, d, s, env)
    ensures var a, b := Merged(RenamedBatches(early, k)), Merged(later);
            AtOnceBoth(a, b, env, op)
            && !InEither(a, b, LateIds(RenamedBatches(early, k), env), LateIds(later, env), env, op)
  {
    var renamed := RenamedBatches(early, k);
    var a, b := Merged(renamed), Merged(later);
    hide Merged, ResultKey, RenamedBatches, Comparable, WellFormed, FewPending, LateIds, RecoversLate, CallGives,
         GivesLive, AllKept, InEither, AtOnceBoth, LateKnown, FindResult, AllPolls, InStore, OwnPlaces, UniqueCalls,
         Unanswered;
    ComparableIsTwoParts(early, later, k);
    RunIsExplained(renamed, env);
    var c;
    c, op := LostFromCall(renamed, env, i, j, d, s);
    SuffixesAreUnique(a.results, b.results);
    assert FindResult(b.results, c.callId).None?;
    hide TwoParts;
    EarlyCallGives(a, b, c, LateIds(renamed, env), env, op);
    AtEarlyCall(a, b, c, LateIds(renamed, env), LateIds(later, env), env, op);
  }

  lemma LaterRecoveryDiffers(early: seq<Batch>, later: seq<Batch>, k: Rekey, env: Reading, i: nat, j: nat, d: ToolCall,
                             s: ToolResult) returns (op: Operation)
    requires Comparable(early, later, k) && RecoversLate(later, i, j, d, s, env)
    ensures var a, b := Merged(RenamedBatches(early, k)), Merged(later);
            AtOnceBoth(a, b, env, op)
            && !InEither(a, b, LateIds(RenamedBatches(early, k), env), LateIds(later, env), env, op)
  {
    var renamed := RenamedBatches(early, k);
    var a, b := Merged(renamed), Merged(later);
    hide Merged, ResultKey, RenamedBatches, Comparable, WellFormed, FewPending, LateIds, RecoversLate, CallGives,
         GivesLive, AllKept, InEither, AtOnceBoth, TwoParts;
    ComparableIsTwoParts(early, later, k);
    var c;
    c, op := LostFromCall(later, env, i, j, d, s);
    LaterCallGives(a, b, c, env, op);
    AtLaterCall(a, b, c, LateIds(renamed, env), LateIds(later, env), env, op);
  }

  lemma CrossingPair(a: Batch, b: Batch, c: ToolCall, r: ToolResult)
    requires TwoParts(a, b) && c in a.calls && r in b.results && r.callId == c.callId
    ensures FindResult(b.results, c.callId) == Some(r) && FindCall(a.calls, r.callId) == Some(c)
  {
    hide OwnPlaces, ResultPlaces;
    PrefixesAreUnique(a.calls, b.calls);
    SuffixesAreUnique(a.results, b.results);
    ResultsAreUnique(b.results, r, FindResult(b.results, c.callId).value);
    CallsAreUnique(a.calls, c, FindCall(a.calls, r.callId).value);
  }

  lemma CrossingDiffers(early: seq<Batch>, later: seq<Batch>, k: Rekey, env: Reading, c: ToolCall, r: ToolResult)
    returns (op: Operation)
    requires Comparable(early, later, k) && Crosses(early, later, k, c, r) && MatchingMatters(c, r, env)
    ensures var a, b := Merged(RenamedBatches(early, k)), Merged(later);
            AtOnceBoth(a, b, env, op) !=
            InEither(a, b, LateIds(RenamedBatches(early, k), env), LateIds(later, env), env, op)
  {
    var renamed := RenamedBatches(early, k);
    var a, b, lateA, lateB := Merged(renamed), Merged(later), LateIds(renamed, env), LateIds(later, env);
    hide Merged, ResultKey, RenamedBatches, Comparable, WellFormed, FewPending, LateIds, CallGives, GivesLive, AllKept,
         InEither, AtOnceBoth, TwoParts, LateKnown, AllPolls, InStore, Unanswered, FindCall, FindResult, ResultGives,
         FailedWith, StatusFails, ResultOps, Skips;
    ComparableIsTwoParts(early, later, k);
    RunIsExplained(renamed, env);
    CrossingPair(a, b, c, r);
    if GivenBy(r, None, env) != GivenBy(r, Some(c), env) {
      op :| (op in GivenBy(r, None, env)) != (op in GivenBy(r, Some(c), env));
      GivenInPlace(r, None, env, op);
      GivenInPlace(r, Some(c), env, op);
      LaterResultGives(a, b, r, env, op);
      AtLaterResult(a, b, r, lateA, lateB, env, op);
    } else {
      op := LostIsGiven(c);
      CallOpsHaveItsPlace(c, op);
      EarlyCallGives(a, b, c, lateA, env, op);
      AtEarlyCall(a, b, c, lateA, lateB, env, op);
    }
  }

  lemma GivenInPlace(r: ToolResult, m: Option<ToolCall>, env: Reading, op: Operation)
    ensures op in GivenBy(r, m, env) ==> op.provenance == r.provenance
  {
    hide ResultOps, Skips, ResultKey;
    ResultOpsHaveItsPlace(KeptForm(r, env), m, env, op);
  }

  lemma StoredInEither(early: seq<Batch>, later: seq<Batch>, k: Rekey, env: Reading, op: Operation)
    requires Comparable(early, later, k) && Blind(env)
    ensures var a, b := Merged(RenamedBatches(early, k)), Merged(later);
            && (op in RekeyedPolls(early + later, k, env).stored <==>
                InEither(a, b, LateIds(RenamedBatches(early, k), env), LateIds(later, env), env, op))
            && (op in AtOnce(Final(early, later, k), env) <==> AtOnceBoth(a, b, env, op))
  {
    var renamed := RenamedBatches(early, k);
    assert WellFormed(Final(early, later, k));
    hide Merged, ResultKey, RenamedBatches, Comparable, WellFormed, FewPending, LateIds, AllKept, AllPolls, InStore,
         Unanswered, RekeyedPolls, Blind, AtOnce, InBatch, LateKnown, Parts;
    ComparableIsTwoParts(early, later, k);
    ComparableParts(early, later, k);
    StoredIsBoth(early, later, k, env);
    RunIsExplained(renamed, env);
    RunIsExplained(later, env);
    AtOnceIs(Final(early, later, k), env, op);
  }

  /**
   * A log whose state session is replaced between two polls: the store, renamed, holds what one run over the whole log
   * stores if and only if no failed call recovers in a later poll of its part, and no call waits across the
   * replacement whose result, matched with it, says otherwise about the call or names other operations than alone.
   */
  lemma RekeyedPollsEqualBatchIff(early: seq<Batch>, later: seq<Batch>, k: Rekey, env: Reading)
    requires Comparable(early, later, k) && Blind(env)
    ensures RekeyedPolls(early + later, k, env).stored == AtOnce(Final(early, later, k), env) <==>
            !Differs(early, later, k, env)
  {
    hide Merged, RenamedBatches, Comparable, LateIds, RekeyedPolls, Blind, AtOnce, InEither, AtOnceBoth, RecoversLate,
         MatchingMatters, Crosses, Final;
    if Differs(early, later, k, env) {
      var op;
      if i: nat, j: nat, c, r :| RecoversLate(RenamedBatches(early, k), i, j, c, r, env) {
        op := EarlyRecoveryDiffers(early, later, k, env, i, j, c, r);
      } else if i: nat, j: nat, c, r :| RecoversLate(later, i, j, c, r, env) {
        op := LaterRecoveryDiffers(early, later, k, env, i, j, c, r);
      } else {
        var c, r :| Crosses(early, later, k, c, r) && MatchingMatters(c, r, env);
        op := CrossingDiffers(early, later, k, env, c, r);
      }
      StoredInEither(early, later, k, env, op);
    } else {
      forall op
        ensures op in RekeyedPolls(early + later, k, env).stored <==> op in AtOnce(Final(early, later, k), env)
      {
        StoredInEither(early, later, k, env, op);
        NothingDiffers(early, later, k, env, op);
      }
    }
  }

  // ---- A call that waits across the replacement ----

  lemma WaitingCallIsComparable(c: ToolCall, r: ToolResult, k: Rekey)
    requires c.callId.Some? && r.callId == c.callId && CompatibleContext(r.turnId, c.turnId)
    requires c.provenance != r.provenance && IsUnmarked(r) && k.at == 1 && k.from != k.to
    requires c.sessionId == Some(k.from) && r.sessionId == Some(k.to)
    ensures Comparable([Batch([c], [])], [Batch([], [r])], k)
  {
    var early, later, d := [Batch([c], [])], [Batch([], [r])], RenamedCall(c, k);
    var final := Final(early, later, k);
    assert RenamedCalls([c], k) == [d] && RenamedResults([], k) == [];
    assert RenamedBatches(early, k) == [Batch([d], [])];
    assert final == [Batch([d], []), Batch([], [r])];
    OneCallThenItsResult(d, r);
    MergedOfTwo(final);
    MergedOfOne(early[0]);
    MergedOfOne(later[0]);
    hide Merged, WellFormed;
    assert Merged(final).results == [r];
    WaitsAtMostOne(early, later, c, r);
  }

  lemma MergedOfOne(b: Batch)
    ensures Merged([b]) == b && Merged([]) == Batch([], [])
  {
    assert [b][..0] == [];
    assert [] + b.calls == b.calls && [] + b.results == b.results;
  }

  lemma WaitsAtMostOne(early: seq<Batch>, later: seq<Batch>, c: ToolCall, r: ToolResult)
    requires early == [Batch([c], [])] && later == [Batch([], [r])]
    ensures FewWaiting(early, later)
  {
    MergedOfOne(early[0]);
    MergedOfOne(later[0]);
    hide Merged, Unanswered;
    UnansweredIsShorter([c], []);
    UnansweredIsShorter([], [r]);
    UnansweredIsShorter([], []);
    forall n | 0 <= n <= 1 ensures Waiting(early, n) <= 1 && Waiting(later, n) == 0 {
      assert early[..n] == (if n == 0 then [] else early) && later[..n] == if n == 0 then [] else later;
    }
  }

  /** The call keeps its operations in the store, whatever its result says, when its own status does not fail it. */
  lemma WaitingCallIsNeverRetracted(c: ToolCall, r: ToolResult, k: Rekey, env: Reading)
    requires c.callId.Some? && r.callId == c.callId && CompatibleContext(r.turnId, c.turnId)
    requires c.provenance != r.provenance && IsUnmarked(r) && k.at == 1 && k.from != k.to
    requires c.sessionId == Some(k.from) && r.sessionId == Some(k.to) && c.targets != [] && Blind(env)
    requires !StatusFails(c.status, env) && FailedWith(c, Some(r), env)
    ensures var early, later := [Batch([c], [])], [Batch([], [r])];
            RekeyedPolls(early + later, k, env).stored != AtOnce(Final(early, later, k), env)
  {
    var early, later, d := [Batch([c], [])], [Batch([], [r])], RenamedCall(c, k);
    WaitingCallIsComparable(c, r, k);
    assert RenamedCalls([c], k) == [d] && RenamedResults([], k) == [];
    assert RenamedBatches(early, k) == [Batch([d], [])];
    MergedOfOne(Batch([d], []));
    MergedOfOne(later[0]);
    hide Comparable, Blind, RekeyedPolls, AtOnce, Final, Merged, GivenBy;
    assert Crosses(early, later, k, d, r) && MatchingMatters(d, r, env);
    RekeyedPollsEqualBatchIff(early, later, k, env);
  }

  ghost predicate DiffersWithoutRecovery(early: seq<Batch>, later: seq<Batch>, k: Rekey, env: Reading)
  {
    && Comparable(early, later, k) && Blind(env)
    && (forall i, j, c, r :: !RecoversLate(Final(early, later, k), i, j, c, r, env))
    && RekeyedPolls(early + later, k, env).stored != AtOnce(Final(early, later, k), env)
  }

  lemma NothingRecovers(c: ToolCall, r: ToolResult, k: Rekey, env: Reading)
    requires c.status.None?
    ensures forall i, j, d, s :: !RecoversLate(Final([Batch([c], [])], [Batch([], [r])], k), i, j, d, s, env)
  {
    assert RenamedCalls([c], k) == [RenamedCall(c, k)] && RenamedResults([], k) == [];
    assert Final([Batch([c], [])], [Batch([], [r])], k) == [Batch([RenamedCall(c, k)], []), Batch([], [r])];
  }

  lemma StatuslessCallDiffers(c: ToolCall, r: ToolResult, k: Rekey, env: Reading)
    requires c.callId.Some? && r.callId == c.callId && CompatibleContext(r.turnId, c.turnId) && c.status.None?
    requires c.provenance != r.provenance && IsUnmarked(r) && k.at == 1 && k.from != k.to
    requires c.sessionId == Some(k.from) && r.sessionId == Some(k.to) && c.targets != [] && Blind(env)
    requires ResultIsFailed(r, env)
    ensures DiffersWithoutRecovery([Batch([c], [])], [Batch([], [r])], k, env)
  {
    hide Comparable, RekeyedPolls, AtOnce, Final, Blind, RecoversLate;
    WaitingCallIsComparable(c, r, k);
    WaitingCallIsNeverRetracted(c, r, k, env);
    NothingRecovers(c, r, k, env);
  }

  /** An edit read under the state session, its exit code 1 under the session that replaced it. */
  lemma WaitingCallHappens()
    ensures exists early, later, k, env :: DiffersWithoutRecovery(early, later, k, env)
  {
    hide DiffersWithoutRecovery;
    var env := Reading(s => s == "failed", (r, m) => [], parts => "");
    var k := Rekey(1, "s", "r");
    var c := ToolCall(Some("1"), Some("s"), None, None, [Target("a.txt", "/a.txt", "edit")], Provenance("log", 1));
    var r := ToolResult(Some("1"), Some("r"), None, None, None, None, None, None, Some(1), None, Failed,
                        FromExitCode, None, None, false, Provenance("log", 2));
    assert k.from[0] != k.to[0];
    StatuslessCallDiffers(c, r, k, env);
  }
}
