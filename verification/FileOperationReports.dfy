/** Logs in which a later poll may bring a better report of a call: when polls and one batch still agree. */
module FileOperationReports {
  import opened Wrappers
  import opened Slices
  import opened Correlation
  import opened Duplicates
  import opened FileOperations
  import opened FileOperationSets
  import opened FileOperationRuns
  import opened FileOperationRepeats
  import opened FileOperationReplacements

  // ---- The reports both readings go by ----

  /** Polls go by the best report of the poll that reported a call first. */
  ghost function FirstReports(batches: seq<Batch>): seq<ToolResult>
  {
    Merged(Reduced(batches)).results
  }

  /** One batch goes by the best report of all. */
  ghost function BestReports(batches: seq<Batch>): seq<ToolResult>
  {
    var all := Merged(batches).results; Chosen({}, all, |all|)
  }

  /** Polls leave the call's operations out: its first report fails it, or says too late that it did not fail. */
  ghost predicate FailsLive(batches: seq<Batch>, c: ToolCall, env: Reading)
  {
    || FailedWith(c, FindResult(FirstReports(batches), c.callId), env)
    || exists i, j, r :: RecoversLate(Reduced(batches), i, j, c, r, env)
  }

  ghost predicate FailsAtOnce(batches: seq<Batch>, c: ToolCall, env: Reading)
  {
    FailedWith(c, FindResult(BestReports(batches), c.callId), env)
  }

  /** The operations of the call are kept by one reading only. */
  ghost predicate StandsApart(batches: seq<Batch>, c: ToolCall, env: Reading)
  {
    && c in Merged(batches).calls && c.sessionId.Some? && c.targets != []
    && FailsLive(batches, c, env) != FailsAtOnce(batches, c, env)
  }

  ghost predicate Adds(batches: seq<Batch>, r: ToolResult, env: Reading)
  {
    GivenBy(r, FindCall(Merged(batches).calls, r.callId), env) != {}
  }

  /** The readings go by different reports of a call, and one of the two reports adds operations of its own. */
  ghost predicate Overtaken(batches: seq<Batch>, r: ToolResult, s: ToolResult, env: Reading)
  {
    && r in FirstReports(batches) && s in BestReports(batches) && r.callId == s.callId && r != s
    && (Adds(batches, r, env) || Adds(batches, s, env))
  }

  // ---- What they are ----

  lemma BestAreGiven(batches: seq<Batch>)
    requires Agree(Merged(batches).results)
    ensures forall r :: r in BestReports(batches) ==> r in Merged(batches).results
    ensures UniqueResults(BestReports(batches))
  {
    hide IsBest, Agree, Merged;
    var all := Merged(batches).results;
    ChosenFromGiven({}, all);
    IdsAreGiven(all);
    ChosenAreUnique({}, all, |all|);
  }

  lemma ReportsAreGiven(batches: seq<Batch>)
    requires WellFormedWithRepeats(batches)
    ensures forall r :: r in FirstReports(batches) || r in BestReports(batches) ==> r in Merged(batches).results
    ensures UniqueResults(FirstReports(batches)) && UniqueResults(BestReports(batches))
  {
    hide Merged, Reduced, StillRecent, BestReports, Fits, OwnPlaces, UniqueCalls, AllUnmarked, NoResultBeforeItsCall,
         UniqueResults, Agree;
    ReducedShape(batches);
    ReducedIsWellFormed(batches);
    BestAreGiven(batches);
  }

  lemma BestReportsAll(batches: seq<Batch>, id: Option<string>)
    requires ReportedIn(Merged(batches).results, id)
    ensures ReportedIn(BestReports(batches), id)
  {
    hide Merged;
    var all := Merged(batches).results;
    var s :| s in all && s.callId == id;
    var i :| 0 <= i < |all| && all[i] == s;
    var k := BestExists(all, |all|, id);
    assert k < |all| && IsBest({}, all, k);
    hide IsBest, IsBestBefore;
    ChosenMembers({}, all, |all|);
    assert all[k] in BestReports(batches);
  }

  /** Both readings go by one report of each call reported at all. */
  lemma BothReport(batches: seq<Batch>, id: Option<string>)
    requires WellFormedWithRepeats(batches) && ReportedIn(Merged(batches).results, id)
    ensures ReportedIn(FirstReports(batches), id) && ReportedIn(BestReports(batches), id)
  {
    hide Merged, Reduced, StillRecent, BestReports, Fits, OwnPlaces, UniqueCalls, AllUnmarked, NoResultBeforeItsCall,
         UniqueResults, Agree;
    var all := Merged(batches).results;
    IdsAreGiven(all);
    assert forall r :: r in all ==> r.callId.Some?;
    ReducedIsUnique(batches);
    BestReportsAll(batches, id);
    var s :| s in all && s.callId == id;
  }

  lemma ReportPlaces(batches: seq<Batch>)
    requires WellFormedWithRepeats(batches) && ResultPlaces(Merged(batches).results)
    ensures ResultPlaces(FirstReports(batches)) && ResultPlaces(BestReports(batches))
    ensures OwnPlaces(Merged(batches).calls, FirstReports(batches))
    ensures OwnPlaces(Merged(batches).calls, BestReports(batches))
  {
    ReportsAreGiven(batches);
    hide FirstReports, BestReports, StillRecent, Fits, UniqueCalls, AllUnmarked, NoResultBeforeItsCall, Agree, Merged;
    PlacesOfSome(Merged(batches).results, FirstReports(batches));
    PlacesOfSome(Merged(batches).results, BestReports(batches));
  }

  lemma PlacesOfSome(all: seq<ToolResult>, some: seq<ToolResult>)
    requires ResultPlaces(all) && UniqueResults(some) && forall r :: r in some ==> r in all
    ensures ResultPlaces(some)
  {
    forall i, j | 0 <= i < j < |some| ensures some[i].provenance != some[j].provenance {
      assert some[i] in all && some[j] in all;
      if some[i].provenance == some[j].provenance {
        SameResultPlace(all, some[i], some[j]);
      }
    }
  }

  // ---- What they put into the store ----

  lemma BestIsWellFormed(batches: seq<Batch>)
    requires WellFormedWithRepeats(batches)
    ensures var best := [Batch(Merged(batches).calls, BestReports(batches))];
            WellFormed(best) && Merged(best) == best[0] && AllUnmarked(BestReports(batches))
  {
    var all, best := Merged(batches), BestReports(batches);
    assert UniqueCalls(all.calls) && AllUnmarked(all.results) && Fits(all.calls, all.results)
        && OwnPlaces(all.calls, all.results);
    ReportsAreGiven(batches);
    MergedOfOne(Batch(all.calls, best));
    hide Merged, BestReports, WellFormedWithRepeats, UniqueResults, UniqueCalls;
    SomeFit(all.calls, all.results, best);
  }

  lemma SomeFit(calls: seq<ToolCall>, all: seq<ToolResult>, some: seq<ToolResult>)
    requires AllUnmarked(all) && Fits(calls, all) && OwnPlaces(calls, all) && forall r :: r in some ==> r in all
    ensures AllUnmarked(some) && Fits(calls, some) && OwnPlaces(calls, some)
  {
    hide IsUnmarked, ContextsCompatible;
    assert forall i :: 0 <= i < |some| ==> some[i] in all;
  }

  /** One batch reads a log as it reads its best reports. */
  lemma BestLog(batches: seq<Batch>, env: Reading)
    requires WellFormedWithRepeats(batches)
    ensures var best := [Batch(Merged(batches).calls, BestReports(batches))];
            WellFormed(best) && Merged(best) == best[0] && AtOnce(batches, env) == AtOnce(best, env)
  {
    var all, best := Merged(batches), BestReports(batches);
    assert Agree(all.results) && AllUnmarked(all.results);
    ReportsAreGiven(batches);
    BestIsWellFormed(batches);
    hide Merged, Marked, Extract, WellFormedWithRepeats, UniqueResults, Originals, Chosen, ResultKey, WellFormed, Agree,
         IsUnmarked;
    NobodyBefore(all.results);
    assert Ids([]) == {};
    OriginalsAreChosen([], all.results, |all.results|, env);
    TakeAll(Marked([], all.results, env), |all.results|);
    MarkedIsKept([], best, env);
    ExtractOfOriginals([], all.calls, Marked([], all.results, env), env);
  }

  lemma StoredBy(batches: seq<Batch>, env: Reading, op: Operation)
    requires WellFormedWithRepeats(batches) && FewPending(batches)
    ensures var calls := Merged(batches).calls;
            && (op in AllPolls(batches, env).stored <==>
                InStore(calls, AllKept(FirstReports(batches), env), LateIds(Reduced(batches), env), env, op))
            && (op in AtOnce(batches, env) <==> InBatch(calls, AllKept(BestReports(batches), env), env, op))
  {
    hide Merged, Reduced, WellFormedWithRepeats, WellFormed, FewPending, AllPolls, AtOnce, InStore, InBatch, AllKept,
         LateIds, BestReports, LateKnown;
    PollsReduce(batches, env);
    ReducedShape(batches);
    ReducedIsWellFormed(batches);
    ReducedHasFewPending(batches);
    RunIsExplained(Reduced(batches), env);
    BestLog(batches, env);
    AtOnceIs([Batch(Merged(batches).calls, BestReports(batches))], env, op);
  }

  lemma LiveCall(batches: seq<Batch>, c: ToolCall, env: Reading, op: Operation)
    requires WellFormedWithRepeats(batches) && c in Merged(batches).calls
    ensures GivesLive(c, AllKept(FirstReports(batches), env), LateIds(Reduced(batches), env), env, op) <==>
            op in CallOps(c) && !FailsLive(batches, c, env)
  {
    hide Merged, Reduced, WellFormedWithRepeats, WellFormed, AllKept, LateIds, CallOps, FindResult, FailedWith,
         StatusFails, ResultKey;
    var first := FirstReports(batches);
    ReducedShape(batches);
    ReducedIsWellFormed(batches);
    FindKept(first, c.callId, env);
    var found := FindResult(first, c.callId);
    if found.Some? {
      KeptFailsAlike(c, found.value, env);
    }
    LackingMeansLateRecovery(Reduced(batches), env, c, op);
    if i: nat, j: nat, r :| RecoversLate(Reduced(batches), i, j, c, r, env) {
      LaterIsLate(Reduced(batches), env, i, j, c, r);
    }
  }

  lemma BestCall(batches: seq<Batch>, c: ToolCall, env: Reading, op: Operation)
    ensures CallGives(c, AllKept(BestReports(batches), env), env, op) <==>
            op in CallOps(c) && !FailsAtOnce(batches, c, env)
  {
    hide Merged, AllKept, CallOps, FindResult, FailedWith, ResultKey, BestReports;
    var best := BestReports(batches);
    FindKept(best, c.callId, env);
    var found := FindResult(best, c.callId);
    if found.Some? {
      KeptFailsAlike(c, found.value, env);
    }
  }

  lemma ResultAdds(calls: seq<ToolCall>, r: ToolResult, env: Reading, op: Operation)
    ensures ResultGives(KeptForm(r, env), calls, env, op) <==> op in GivenBy(r, FindCall(calls, r.callId), env)
  {
    hide FindCall, ResultKey, ResultOps, Skips;
    KeptSkipsAlike(r, FindCall(calls, r.callId), env);
  }

  // ---- Agreement ----

  /** A report that adds an operation is one that both readings go by, unless it overtakes or is overtaken. */
  lemma SharedReport(batches: seq<Batch>, env: Reading, r: ToolResult, op: Operation)
    requires WellFormedWithRepeats(batches) && forall r, s :: !Overtaken(batches, r, s, env)
    requires op in GivenBy(r, FindCall(Merged(batches).calls, r.callId), env)
    ensures r in FirstReports(batches) <==> r in BestReports(batches)
  {
    hide Merged, WellFormedWithRepeats, FirstReports, BestReports, GivenBy, FindCall;
    assert Adds(batches, r, env);
    if r in FirstReports(batches) || r in BestReports(batches) {
      ReportsAreGiven(batches);
      assert ReportedIn(Merged(batches).results, r.callId);
      BothReport(batches, r.callId);
      var a :| a in FirstReports(batches) && a.callId == r.callId;
      var b :| b in BestReports(batches) && b.callId == r.callId;
      assert !Overtaken(batches, r, b, env) && !Overtaken(batches, a, r, env);
    }
  }

  lemma ReadAlike(batches: seq<Batch>, env: Reading, op: Operation)
    requires WellFormedWithRepeats(batches)
    requires forall c :: !StandsApart(batches, c, env)
    requires forall r, s :: !Overtaken(batches, r, s, env)
    ensures var calls := Merged(batches).calls;
            InStore(calls, AllKept(FirstReports(batches), env), LateIds(Reduced(batches), env), env, op) <==>
            InBatch(calls, AllKept(BestReports(batches), env), env, op)
  {
    hide Merged, Reduced, WellFormedWithRepeats, AllKept, LateIds, CallOps, FailsLive, FailsAtOnce, FirstReports,
         BestReports, Overtaken, GivesLive, CallGives, ResultGives, GivenBy, KeptForm;
    var calls, first, best := Merged(batches).calls, FirstReports(batches), BestReports(batches);
    forall c | c in calls
      ensures GivesLive(c, AllKept(first, env), LateIds(Reduced(batches), env), env, op) <==>
              CallGives(c, AllKept(best, env), env, op)
    {
      LiveCall(batches, c, env, op);
      BestCall(batches, c, env, op);
      assert !StandsApart(batches, c, env);
      if op in CallOps(c) {
        GivingCallNamesSomething(c, op);
      }
    }
    InKept(first, calls, env, op);
    InKept(best, calls, env, op);
    forall r | ResultGives(KeptForm(r, env), calls, env, op) ensures r in first <==> r in best {
      ResultAdds(calls, r, env, op);
      SharedReport(batches, env, r, op);
    }
  }

  // ---- Difference ----

  lemma CallTellsApart(batches: seq<Batch>, env: Reading, c: ToolCall) returns (op: Operation)
    requires WellFormedWithRepeats(batches) && ResultPlaces(Merged(batches).results) && StandsApart(batches, c, env)
    ensures var calls := Merged(batches).calls;
            InStore(calls, AllKept(FirstReports(batches), env), LateIds(Reduced(batches), env), env, op) !=
            InBatch(calls, AllKept(BestReports(batches), env), env, op)
  {
    hide Merged, Reduced, WellFormedWithRepeats, AllKept, LateIds, CallOps, FailsLive, FailsAtOnce, FirstReports,
         BestReports, GivesLive, CallGives, InStore, InBatch, OwnPlaces, ResultPlaces;
    var calls, first, best := Merged(batches).calls, FirstReports(batches), BestReports(batches);
    op := LostIsGiven(c);
    CallOpsHaveItsPlace(c, op);
    ReportPlaces(batches);
    KeptPlaces(calls, first, env);
    KeptPlaces(calls, best, env);
    AtCall(calls, AllKept(first, env), c, LateIds(Reduced(batches), env), env, op);
    AtCall(calls, AllKept(best, env), c, {}, env, op);
    LiveCall(batches, c, env, op);
    BestCall(batches, c, env, op);
  }

  /** An operation of a report is stored by the reading that goes by it, and not by one that does not. */
  lemma OnlyWhereReported(calls: seq<ToolCall>, reports: seq<ToolResult>, r: ToolResult, late: set<Option<string>>,
                          all: seq<ToolResult>, env: Reading, op: Operation)
    requires OwnPlaces(calls, reports) && ResultPlaces(reports) && ResultPlaces(all) && OwnPlaces(calls, all)
    requires r in all && (forall s :: s in reports ==> s in all)
    requires op in GivenBy(r, FindCall(calls, r.callId), env)
    ensures InStore(calls, AllKept(reports, env), late, env, op) <==> r in reports
    ensures InBatch(calls, AllKept(reports, env), env, op) <==> r in reports
  {
    hide FindCall, AllKept, ResultPlaces, InStore, InBatch, ResultGives, KeptForm;
    var m := FindCall(calls, r.callId);
    GivenInPlace(r, m, env, op);
    KeptPlaces(calls, reports, env);
    if r in reports {
      KeptMembers(reports, env);
      ResultAdds(calls, r, env, op);
      AtKept(calls, AllKept(reports, env), r, late, env, op);
    } else {
      forall s | s in reports ensures s.provenance != r.provenance {
        if s.provenance == r.provenance {
          SameResultPlace(all, s, r);
        }
      }
      PlacesKept(reports, env, op, r);
      NotHere(calls, AllKept(reports, env), late, env, op);
      NotHere(calls, AllKept(reports, env), {}, env, op);
      WithoutLate(calls, AllKept(reports, env), env, op);
    }
  }

  lemma AtKept(calls: seq<ToolCall>, results: seq<ToolResult>, r: ToolResult, late: set<Option<string>>, env: Reading,
               op: Operation)
    requires OwnPlaces(calls, results) && ResultPlaces(results) && KeptForm(r, env) in results
    requires op.provenance == r.provenance
    ensures InBatch(calls, results, env, op) <==> ResultGives(KeptForm(r, env), calls, env, op)
    ensures InStore(calls, results, late, env, op) <==> ResultGives(KeptForm(r, env), calls, env, op)
  {
    hide OwnPlaces, ResultPlaces, InStore, InBatch, ResultGives, ResultKey;
    AtResult(calls, results, KeptForm(r, env), late, env, op);
  }

  lemma WithoutLate(calls: seq<ToolCall>, results: seq<ToolResult>, env: Reading, op: Operation)
    ensures InStore(calls, results, {}, env, op) <==> InBatch(calls, results, env, op)
  {
    hide CallGives, ResultGives;
    assert forall c :: c in calls ==> (GivesLive(c, results, {}, env, op) <==> CallGives(c, results, env, op));
  }

  lemma ReportTellsApart(batches: seq<Batch>, env: Reading, r: ToolResult, s: ToolResult) returns (op: Operation)
    requires WellFormedWithRepeats(batches) && ResultPlaces(Merged(batches).results) && Overtaken(batches, r, s, env)
    ensures var calls := Merged(batches).calls;
            InStore(calls, AllKept(FirstReports(batches), env), LateIds(Reduced(batches), env), env, op) !=
            InBatch(calls, AllKept(BestReports(batches), env), env, op)
  {
    ReportsAreGiven(batches);
    ReportPlaces(batches);
    var all := Merged(batches);
    assert OwnPlaces(all.calls, all.results);
    hide Merged, Reduced, WellFormedWithRepeats, AllKept, LateIds, FirstReports, BestReports, InStore, InBatch,
         OwnPlaces, ResultPlaces, GivenBy, FindCall;
    var first, best := FirstReports(batches), BestReports(batches);
    var t := if Adds(batches, r, env) then r else s;
    op :| op in GivenBy(t, FindCall(all.calls, t.callId), env);
    if r in best {
      ResultsAreUnique(best, r, s);
    }
    if s in first {
      ResultsAreUnique(first, r, s);
    }
    OnlyWhereReported(all.calls, first, t, LateIds(Reduced(batches), env), all.results, env, op);
    OnlyWhereReported(all.calls, best, t, {}, all.results, env, op);
  }

  /**
   * A call may be reported any number of times without contradiction, better in a later poll or not, while an earlier
   * report is still carried along. Polls go by its first report and one batch by its best: they leave the same
   * operations if and only if both keep the operations of the same calls, and where the two reports differ neither
   * adds operations of its own.
   */
  lemma ReportedPollsEqualBatchIff(batches: seq<Batch>, env: Reading)
    requires WellFormedWithRepeats(batches) && FewPending(batches) && ResultPlaces(Merged(batches).results)
    ensures AllPolls(batches, env).stored == AtOnce(batches, env) <==>
            (forall c :: !StandsApart(batches, c, env)) && (forall r, s :: !Overtaken(batches, r, s, env))
  {
    hide Merged, Reduced, WellFormedWithRepeats, FewPending, AllPolls, AtOnce, AllKept, LateIds, FirstReports,
         BestReports, InStore, InBatch, ResultPlaces, StandsApart, Overtaken;
    if c :| StandsApart(batches, c, env) {
      var op := CallTellsApart(batches, env, c);
      StoredBy(batches, env, op);
    } else if r, s :| Overtaken(batches, r, s, env) {
      var op := ReportTellsApart(batches, env, r, s);
      StoredBy(batches, env, op);
    } else {
      forall op ensures op in AllPolls(batches, env).stored <==> op in AtOnce(batches, env) {
        StoredBy(batches, env, op);
        ReadAlike(batches, env, op);
      }
    }
  }
}
