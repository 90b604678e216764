/**
 * File operations of a log whose state session is replaced between two polls: the store is renamed, the calls carried
 * along are not, src/normalize.rs, src/monitor.rs and src/store.rs.
 */
module FileOperationRekeys {
  import opened Wrappers
  import opened Slices
  import opened Correlation
  import opened Duplicates
  import opened FileOperations
  import opened FileOperationSets
  import opened FileOperationRuns

  // ---- Polls with a replacement ----

  /** Poll `at` is the first to name rows by `to`; in the store those of earlier polls are renamed. */
  datatype Rekey = Rekey(at: nat, from: string, to: string)

  function RenamedOp(op: Operation, k: Rekey): Operation
  {
    if op.session == k.from then op.(session := k.to) else op
  }

  function RenamedOps(operations: set<Operation>, k: Rekey): set<Operation>
  {
    set op | op in operations :: RenamedOp(op, k)
  }

  function RenamedCall(c: ToolCall, k: Rekey): ToolCall
  {
    if c.sessionId == Some(k.from) then c.(sessionId := Some(k.to)) else c
  }

  function RenamedResult(r: ToolResult, k: Rekey): ToolResult
  {
    if r.sessionId == Some(k.from) then r.(sessionId := Some(k.to)) else r
  }

  function RenamedCalls(calls: seq<ToolCall>, k: Rekey): (renamed: seq<ToolCall>)
    ensures |renamed| == |calls| && forall i :: 0 <= i < |calls| ==> renamed[i] == RenamedCall(calls[i], k)
  {
    seq(|calls|, i requires 0 <= i < |calls| => RenamedCall(calls[i], k))
  }

  function RenamedResults(results: seq<ToolResult>, k: Rekey): (renamed: seq<ToolResult>)
    ensures |renamed| == |results| && forall i :: 0 <= i < |results| ==> renamed[i] == RenamedResult(results[i], k)
  {
    seq(|results|, i requires 0 <= i < |results| => RenamedResult(results[i], k))
  }

  function RenamedBatches(batches: seq<Batch>, k: Rekey): (renamed: seq<Batch>)
    ensures |renamed| == |batches|
    ensures forall i :: 0 <= i < |batches| ==>
              renamed[i] == Batch(RenamedCalls(batches[i].calls, k), RenamedResults(batches[i].results, k))
  {
    seq(|batches|, i requires 0 <= i < |batches| =>
      Batch(RenamedCalls(batches[i].calls, k), RenamedResults(batches[i].results, k)))
  }

  /** The store is renamed before the poll retracts and inserts; pending calls and recent results stay as they were. */
  function RekeyedPolls(batches: seq<Batch>, k: Rekey, env: Reading): Live
  {
    if batches == [] then Live([], [], {})
    else
      var n := |batches| - 1;
      var live := RekeyedPolls(batches[..n], k, env);
      Poll(if n == k.at then live.(stored := RenamedOps(live.stored, k)) else live, batches[n], env)
  }

  /** The log as one run attributes it: the rows of the earlier polls are under the new session too. */
  function Final(early: seq<Batch>, later: seq<Batch>, k: Rekey): seq<Batch>
  {
    RenamedBatches(early, k) + later
  }

  ghost predicate AllUnder(batches: seq<Batch>, session: string)
  {
    var all := Merged(batches);
    && (forall c :: c in all.calls ==> c.sessionId == Some(session))
    && forall r :: r in all.results ==> r.sessionId == Some(session)
  }

  ghost predicate NoneUnder(batches: seq<Batch>, session: string)
  {
    var all := Merged(batches);
    && (forall c :: c in all.calls ==> c.sessionId.Some? && c.sessionId != Some(session))
    && forall r :: r in all.results ==> r.sessionId.Some? && r.sessionId != Some(session)
  }

  /** Rows of earlier polls are under the session replaced, later ones never are. */
  ghost predicate Replaces(early: seq<Batch>, later: seq<Batch>, k: Rekey)
  {
    |early| == k.at && later != [] && k.from != k.to && AllUnder(early, k.from) && NoneUnder(later, k.from)
  }

  /** What a command touches does not depend on the session its row names. */
  ghost predicate Blind(env: Reading)
  {
    && (forall r: ToolResult, session, key, m ::
          env.observe(r.(sessionId := session, deduplicationKey := key), m) == env.observe(r, m))
    && forall r: ToolResult, c: ToolCall, session ::
         env.observe(r, Some(c.(sessionId := session))) == env.observe(r, Some(c))
  }

  // ---- Calls that can match nothing any more ----

  /** Calls under a session that none of the results names. */
  ghost predicate Stale(calls: seq<ToolCall>, results: seq<ToolResult>, session: string)
  {
    && (forall c :: c in calls ==> c.sessionId == Some(session) && c.callId.Some?)
    && forall r :: r in results ==> r.sessionId.Some? && r.sessionId != Some(session) && r.callId.Some?
  }

  lemma {:induction false} CandidatesConcat(a: seq<ToolCall>, b: seq<ToolCall>, r: ToolResult)
    ensures Candidates(a + b, r) == Candidates(a, r) + Candidates(b, r)
  {
    if b == [] {
      assert a + b == a;
    } else {
      assert (a + b)[..|a + b| - 1] == a + b[..|b| - 1];
      CandidatesConcat(a, b[..|b| - 1], r);
    }
  }

  lemma {:induction false} NoCandidates(calls: seq<ToolCall>, r: ToolResult, session: string)
    requires forall c :: c in calls ==> c.sessionId == Some(session)
    requires r.sessionId.Some? && r.sessionId != Some(session)
    ensures Candidates(calls, r) == []
  {
    if calls != [] {
      var last := calls[|calls| - 1];
      assert last in calls;
      NoCandidates(calls[..|calls| - 1], r, session);
    }
  }

  lemma StaleMatchNothing(stale: seq<ToolCall>, calls: seq<ToolCall>, results: seq<ToolResult>, session: string,
                          r: ToolResult)
    requires Stale(stale, results, session) && r in results
    ensures MatchingCall(stale + calls, r) == MatchingCall(calls, r)
  {
    hide IsCandidate, IsExact;
    NoCandidates(stale, r, session);
    CandidatesConcat(stale, calls, r);
    assert [] + Candidates(calls, r) == Candidates(calls, r);
  }

  lemma {:induction false} SameCandidateResults(stale: seq<ToolCall>, calls: seq<ToolCall>, results: seq<ToolResult>,
                                                session: string, c: ToolCall)
    requires Stale(stale, results, session)
    ensures CandidateResults(results, stale + calls, c) == CandidateResults(results, calls, c)
  {
    hide MatchingCall, ContextsCompatible, SameCall;
    if results != [] {
      var n := |results| - 1;
      assert results[n] in results;
      StaleMatchNothing(stale, calls, results, session, results[n]);
      SameCandidateResults(stale, calls, results[..n], session, c);
    }
  }

  lemma SameFailures(stale: seq<ToolCall>, calls: seq<ToolCall>, results: seq<ToolResult>, session: string, c: ToolCall,
                     env: Reading)
    requires Stale(stale, results, session) && c.callId.Some?
    ensures CallFails(results, stale + calls, c, env) == CallFails(results, calls, c, env)
    ensures CallIsFailed(results, stale + calls, c, env) == CallIsFailed(results, calls, c, env)
  {
    hide CandidateResults, StatusFails, ResultIsFailed;
    SameCandidateResults(stale, calls, results, session, c);
    assert MatchingResults(results, stale + calls, c) == MatchingResults(results, calls, c);
  }

  // ---- One extraction with and without such calls ----

  /** Two extractions that differ only in keys and retractions of one session. */
  ghost predicate AlikeBut(x: Extraction, y: Extraction, session: string)
  {
    && x.emitted == y.emitted
    && (forall key: Key :: key.session != session ==> (key in x.seen <==> key in y.seen))
    && (forall op :: op in x.invalidated && op.session != session ==> op in y.invalidated)
    && forall op :: op in y.invalidated ==> op in x.invalidated
  }

  lemma ObserveUnder(session: Option<string>, turn: Option<string>, at: Provenance, identity: Identity,
                     targets: seq<Target>)
    ensures forall o :: o in Observe(session, turn, at, identity, targets) ==>
              Some(o.operation.session) == session && o.key.session == o.operation.session
  {
  }

  lemma {:induction false} PlainMembers(observed: seq<Observed>)
    ensures forall op :: op in Plain(observed) <==> exists o :: o in observed && o.operation == op
  {
    if observed != [] {
      var init, last := observed[..|observed| - 1], observed[|observed| - 1];
      PlainMembers(init);
      assert observed == init + [last];
    }
  }

  lemma {:induction false} StalePass(stale: seq<ToolCall>, waiting: seq<ToolCall>, n: nat, results: seq<ToolResult>,
                                     calls: seq<ToolCall>, session: string, env: Reading)
    requires n <= |stale| && Stale(stale, results, session)
    ensures AlikeBut(PriorPass(stale + waiting, n, results, calls, env), Extraction({}, [], [], []), session)
  {
    hide CallFails, CallOperations, Observe;
    if n > 0 {
      StalePass(stale, waiting, n - 1, results, calls, session, env);
      var c := stale[n - 1];
      assert (stale + waiting)[n - 1] == c && c in stale;
      CallObserved(c);
      PlainMembers(CallOperations(c));
      ClaimAllIs(PriorPass(stale + waiting, n - 1, results, calls, env), c, CallOperations(c));
    }
  }

  lemma CallObserved(c: ToolCall)
    ensures forall o :: o in CallOperations(c) ==>
              Some(o.operation.session) == c.sessionId && o.key.session == o.operation.session
  {
    ObserveUnder(c.sessionId, c.turnId, c.provenance, CallIdentity(c), c.targets);
  }

  lemma ResultObserved(r: ToolResult, m: Option<ToolCall>, env: Reading)
    ensures forall o :: o in ResultOperations(r, m, env) ==>
              Some(o.operation.session) == r.sessionId && o.key.session == o.operation.session
  {
    ObserveUnder(r.sessionId, r.turnId, r.provenance, ResultIdentity(r), env.observe(r, m));
  }

  /** Calls under other sessions, all identified. */
  ghost predicate Elsewhere(calls: seq<ToolCall>, session: string)
  {
    forall c :: c in calls ==> c.sessionId.Some? && c.sessionId != Some(session) && c.callId.Some?
  }

  lemma {:induction false} PriorAlike(stale: seq<ToolCall>, waiting: seq<ToolCall>, n: nat, results: seq<ToolResult>,
                                      calls: seq<ToolCall>, session: string, env: Reading)
    requires n <= |waiting| && Stale(stale, results, session) && Elsewhere(waiting, session)
    ensures AlikeBut(PriorPass(stale + waiting, |stale| + n, results, stale + calls, env),
                     PriorPass(waiting, n, results, calls, env), session)
  {
    hide CallFails, CallOperations, Stale;
    if n == 0 {
      StalePass(stale, waiting, |stale|, results, stale + calls, session, env);
    } else {
      PriorAlike(stale, waiting, n - 1, results, calls, session, env);
      var c := waiting[n - 1];
      assert (stale + waiting)[|stale| + n - 1] == c && c in waiting;
      SameFailures(stale, calls, results, session, c, env);
      hide AlikeBut;
      ClaimAlike(PriorPass(stale + waiting, |stale| + n - 1, results, stale + calls, env),
                 PriorPass(waiting, n - 1, results, calls, env), c, session);
    }
  }

  lemma ClaimAlike(x: Extraction, y: Extraction, c: ToolCall, session: string)
    requires AlikeBut(x, y, session) && c.callId.Some?
    ensures AlikeBut(ClaimAll(x, c, CallOperations(c)), ClaimAll(y, c, CallOperations(c)), session)
    ensures var lost := Plain(CallOperations(c));
            AlikeBut(x.(invalidated := x.invalidated + lost), y.(invalidated := y.invalidated + lost), session)
  {
    hide CallOperations, ClaimAll, Plain, KeysOf, AlikeBut;
    ClaimAllIs(x, c, CallOperations(c));
    ClaimAllIs(y, c, CallOperations(c));
    SeenAlike(x, y, KeysOf(CallOperations(c)), session);
    LostAlike(x, y, Plain(CallOperations(c)), session);
  }

  lemma SeenAlike(x: Extraction, y: Extraction, keys: set<Key>, session: string)
    requires AlikeBut(x, y, session)
    ensures AlikeBut(x.(seen := x.seen + keys), y.(seen := y.seen + keys), session)
  {
  }

  lemma LostAlike(x: Extraction, y: Extraction, lost: seq<Operation>, session: string)
    requires AlikeBut(x, y, session)
    ensures AlikeBut(x.(invalidated := x.invalidated + lost), y.(invalidated := y.invalidated + lost), session)
  {
  }

  lemma FreshAlike(x: Extraction, y: Extraction, session: string, observed: seq<Observed>)
    requires AlikeBut(x, y, session) && forall o :: o in observed ==> o.key.session != session
    ensures Fresh(observed, x.seen) == Fresh(observed, y.seen)
    ensures AlikeBut(x.(seen := x.seen + KeysOf(observed), emitted := x.emitted + Fresh(observed, x.seen)),
                     y.(seen := y.seen + KeysOf(observed), emitted := y.emitted + Fresh(observed, y.seen)), session)
  {
    FreshAgrees(observed, x.seen, y.seen);
  }

  lemma {:induction false} CallsAlike(x: Extraction, y: Extraction, stale: seq<ToolCall>, current: seq<ToolCall>,
                                      n: nat, results: seq<ToolResult>, calls: seq<ToolCall>, session: string,
                                      env: Reading)
    requires n <= |current| && Stale(stale, results, session) && Elsewhere(current, session) && AlikeBut(x, y, session)
    ensures AlikeBut(CallPass(x, current, n, results, stale + calls, env), CallPass(y, current, n, results, calls, env),
                     session)
  {
    hide CallFails, CallOperations, Stale, AlikeBut, EmitAll;
    if n > 0 {
      CallsAlike(x, y, stale, current, n - 1, results, calls, session, env);
      var c := current[n - 1];
      assert c in current;
      SameFailures(stale, calls, results, session, c, env);
      CallObserved(c);
      var p, q := CallPass(x, current, n - 1, results, stale + calls, env),
          CallPass(y, current, n - 1, results, calls, env);
      EmitAllIs(p, c, CallOperations(c));
      EmitAllIs(q, c, CallOperations(c));
      FreshAlike(p, q, session, CallOperations(c));
    }
  }

  lemma {:induction false} ResultsAlike(x: Extraction, y: Extraction, stale: seq<ToolCall>, n: nat,
                                        results: seq<ToolResult>, calls: seq<ToolCall>, session: string, env: Reading)
    requires n <= |results| && Stale(stale, results, session) && Elsewhere(calls, session) && AlikeBut(x, y, session)
    ensures AlikeBut(ResultPass(x, n, results, stale + calls, env), ResultPass(y, n, results, calls, env), session)
  {
    hide CallFails, CallOperations, AlikeBut, AddAll, ResultOperations, CallIsFailed, MatchingCall, ResultIsFailed;
    if n > 0 {
      ResultsAlike(x, y, stale, n - 1, results, calls, session, env);
      var r := results[n - 1];
      assert r in results;
      StaleMatchNothing(stale, calls, results, session, r);
      var m := MatchingCall(calls, r);
      if m.Some? {
        MatchIsACall(calls, r);
        SameFailures(stale, calls, results, session, m.value, env);
      }
      hide Stale, Elsewhere;
      ResultObserved(r, m, env);
      var p, q := ResultPass(x, n - 1, results, stale + calls, env), ResultPass(y, n - 1, results, calls, env);
      AddAllIs(p, r, ResultOperations(r, m, env));
      AddAllIs(q, r, ResultOperations(r, m, env));
      FreshAlike(p, q, session, ResultOperations(r, m, env));
    }
  }

  lemma MatchIsACall(calls: seq<ToolCall>, r: ToolResult)
    ensures MatchingCall(calls, r).Some? ==> MatchingCall(calls, r).value in calls
  {
    hide MatchingCall;
    MatchingCallIs(calls, r);
  }

  lemma ExtractAlike(stale: seq<ToolCall>, waiting: seq<ToolCall>, current: seq<ToolCall>, results: seq<ToolResult>,
                     session: string, env: Reading)
    requires Stale(stale, results, session) && Elsewhere(waiting + current, session)
    ensures AlikeBut(Extract(stale + waiting, current, results, env), Extract(waiting, current, results, env), session)
  {
    hide PriorPass, CallPass, ResultPass, Stale, AlikeBut;
    var calls := waiting + current;
    assert (stale + waiting) + current == stale + calls;
    assert Elsewhere(waiting, session) && Elsewhere(current, session);
    PriorAlike(stale, waiting, |waiting|, results, calls, session, env);
    var x := PriorPass(stale + waiting, |stale| + |waiting|, results, stale + calls, env);
    var y := PriorPass(waiting, |waiting|, results, calls, env);
    CallsAlike(x, y, stale, current, |current|, results, calls, session, env);
    ResultsAlike(CallPass(x, current, |current|, results, stale + calls, env),
                 CallPass(y, current, |current|, results, calls, env), stale, |results|, results, calls, session, env);
  }

  // ---- The two parts of a log ----

  lemma {:induction false} MergedConcat(a: seq<Batch>, b: seq<Batch>)
    ensures Merged(a + b) == Batch(Merged(a).calls + Merged(b).calls, Merged(a).results + Merged(b).results)
  {
    if b == [] {
      assert a + b == a;
    } else {
      assert (a + b)[..|a + b| - 1] == a + b[..|b| - 1];
      MergedConcat(a, b[..|b| - 1]);
    }
  }

  lemma WellFormedSplit(a: seq<Batch>, b: seq<Batch>)
    requires WellFormed(a + b)
    ensures WellFormed(a) && WellFormed(b)
    ensures forall c, r :: c in Merged(b).calls && r in Merged(a).results ==> c.callId != r.callId
  {
    hide Merged;
    MergedConcat(a, b);
    PartsFit(Merged(a), Merged(b));
    MergedMembers(a);
    MergedMembers(b);
    var all := a + b;
    assert forall i :: 0 <= i < |a| ==> all[i] == a[i];
    assert forall i :: 0 <= i < |b| ==> all[|a| + i] == b[i];
    hide UniqueCalls, UniqueResults, AllUnmarked, Fits, OwnPlaces;
    forall i, j, c, r | 0 <= i < j < |b| && c in b[j].calls && r in b[i].results ensures c.callId != r.callId {
      assert c in all[|a| + j].calls && r in all[|a| + i].results;
    }
    forall c, r | c in Merged(b).calls && r in Merged(a).results ensures c.callId != r.callId {
      var j :| 0 <= j < |b| && c in b[j].calls;
      var i :| 0 <= i < |a| && r in a[i].results;
      assert c in all[|a| + j].calls && r in all[i].results;
    }
  }

  lemma PartsFit(a: Batch, b: Batch)
    requires var calls, results := a.calls + b.calls, a.results + b.results;
             && UniqueCalls(calls) && UniqueResults(results) && AllUnmarked(results)
             && Fits(calls, results) && OwnPlaces(calls, results)
    ensures UniqueCalls(a.calls) && UniqueResults(a.results) && AllUnmarked(a.results)
    ensures Fits(a.calls, a.results) && OwnPlaces(a.calls, a.results)
    ensures UniqueCalls(b.calls) && UniqueResults(b.results) && AllUnmarked(b.results)
    ensures Fits(b.calls, b.results) && OwnPlaces(b.calls, b.results)
  {
    var calls, results := a.calls + b.calls, a.results + b.results;
    WellFormedParts(a, b);
    PrefixesAreUnique(a.calls, b.calls);
    assert forall i :: 0 <= i < |b.calls| ==> b.calls[i] == calls[|a.calls| + i];
    assert forall c :: c in b.calls ==> c in calls;
    assert forall r :: r in b.results ==> r in results;
  }

  lemma {:induction false} MergedRenamed(batches: seq<Batch>, k: Rekey)
    ensures Merged(RenamedBatches(batches, k)) ==
            Batch(RenamedCalls(Merged(batches).calls, k), RenamedResults(Merged(batches).results, k))
  {
    if batches != [] {
      var n := |batches| - 1;
      MergedRenamed(batches[..n], k);
      assert RenamedBatches(batches, k)[..n] == RenamedBatches(batches[..n], k);
    }
  }

  /** Renaming one session everywhere changes nothing in how the rows fit together. */
  lemma RenamedIsWellFormed(batches: seq<Batch>, k: Rekey)
    requires AllUnder(batches, k.from) && WellFormed(RenamedBatches(batches, k))
    ensures WellFormed(batches)
  {
    hide Merged;
    MergedRenamed(batches, k);
    var all, renamed := Merged(batches), RenamedBatches(batches, k);
    RenamedRowsFit(all.calls, all.results, k);
    forall i, j, c, r | 0 <= i < j < |batches| && c in batches[j].calls && r in batches[i].results
      ensures c.callId != r.callId
    {
      var a :| 0 <= a < |batches[j].calls| && batches[j].calls[a] == c;
      var b :| 0 <= b < |batches[i].results| && batches[i].results[b] == r;
      assert renamed[j].calls[a] in renamed[j].calls && renamed[i].results[b] in renamed[i].results;
    }
  }

  lemma RenamedRowsFit(calls: seq<ToolCall>, results: seq<ToolResult>, k: Rekey)
    requires (forall c :: c in calls ==> c.sessionId == Some(k.from))
             && forall r :: r in results ==> r.sessionId == Some(k.from)
    requires var cs, rs := RenamedCalls(calls, k), RenamedResults(results, k);
             UniqueCalls(cs) && UniqueResults(rs) && AllUnmarked(rs) && Fits(cs, rs) && OwnPlaces(cs, rs)
    ensures UniqueCalls(calls) && UniqueResults(results) && AllUnmarked(results)
    ensures Fits(calls, results) && OwnPlaces(calls, results)
  {
    var cs, rs := RenamedCalls(calls, k), RenamedResults(results, k);
    assert forall i :: 0 <= i < |calls| ==> cs[i].callId == calls[i].callId && cs[i].provenance == calls[i].provenance;
    assert UniqueCalls(calls);
    assert forall i, j :: 0 <= i < j < |calls| ==> calls[i].provenance != calls[j].provenance;
    RenamedResultsFit(results, k);
    hide UniqueCalls, UniqueResults, AllUnmarked;
    forall c, r | c in calls && r in results
      ensures c.provenance != r.provenance && (c.callId == r.callId ==> ContextsCompatible(c, r))
    {
      RenamedPairFits(calls, results, c, r, k);
    }
  }

  lemma RenamedResultsFit(results: seq<ToolResult>, k: Rekey)
    requires UniqueResults(RenamedResults(results, k)) && AllUnmarked(RenamedResults(results, k))
    ensures UniqueResults(results) && AllUnmarked(results)
  {
    var rs := RenamedResults(results, k);
    assert forall i :: 0 <= i < |results| ==>
        rs[i].callId == results[i].callId && IsUnmarked(rs[i]) == IsUnmarked(results[i]);
  }

  lemma RenamedPairFits(calls: seq<ToolCall>, results: seq<ToolResult>, c: ToolCall, r: ToolResult, k: Rekey)
    requires c in calls && r in results && c.sessionId == r.sessionId
    requires var cs, rs := RenamedCalls(calls, k), RenamedResults(results, k); Fits(cs, rs) && OwnPlaces(cs, rs)
    ensures c.provenance != r.provenance && (c.callId == r.callId ==> ContextsCompatible(c, r))
  {
    var cs, rs := RenamedCalls(calls, k), RenamedResults(results, k);
    var i :| 0 <= i < |calls| && calls[i] == c;
    var j :| 0 <= j < |results| && results[j] == r;
    assert cs[i] in cs && rs[j] in rs;
  }

  // ---- Pending calls across the replacement ----

  /** Calls that wait when the session is replaced wait for good, and with them never more than are carried along. */
  ghost predicate FewWaiting(early: seq<Batch>, later: seq<Batch>)
  {
    && FewPending(early)
    && forall m :: 0 <= m <= |later| ==> Waiting(early, |early|) + Waiting(later, m) <= MAX_PENDING_TOOL_CALLS
  }

  lemma LaterHasFewPending(early: seq<Batch>, later: seq<Batch>, m: nat)
    requires FewWaiting(early, later) && m <= |later|
    ensures FewPending(later[..m])
  {
    hide Unanswered, Merged;
    forall n: nat | n <= m
      ensures Waiting(later[..m], n) <= MAX_PENDING_TOOL_CALLS
    {
      assert later[..m][..n] == later[..n];
      assert Waiting(later, n) <= MAX_PENDING_TOOL_CALLS;
    }
  }

  lemma {:induction false} StaleStayUnanswered(stale: seq<ToolCall>, results: seq<ToolResult>, session: string)
    requires Stale(stale, results, session)
    ensures Unanswered(stale, results) == stale
  {
    if stale != [] {
      var n := |stale| - 1;
      Snoc(stale);
      assert stale[n] in stale;
      forall r | r in results ensures !Answers(r, stale[n]) {
      }
      hide Answers;
      StaleStayUnanswered(stale[..n], results, session);
    }
  }

  lemma {:induction false} UnansweredAreCalls(calls: seq<ToolCall>, results: seq<ToolResult>)
    ensures forall c :: c in Unanswered(calls, results) ==> c in calls
  {
    hide Answers;
    if calls != [] {
      var n := |calls| - 1;
      assert calls == calls[..n] + [calls[n]];
      UnansweredAreCalls(calls[..n], results);
    }
  }

  // ---- Two runs in one ----

  /** The operation has the session and the place of one of the rows. */
  ghost predicate Stems(op: Operation, calls: seq<ToolCall>, results: seq<ToolResult>)
  {
    (exists c :: c in calls && StemsFromCall(op, c)) || exists r :: r in results && StemsFromResult(op, r)
  }

  lemma InStoreStems(calls: seq<ToolCall>, results: seq<ToolResult>, late: set<Option<string>>, env: Reading,
                     op: Operation)
    requires InStore(calls, results, late, env, op)
    ensures Stems(op, calls, results)
  {
    hide FindCall, FindResult, FailedWith, Skips, StatusFails, CallOperations, ResultOperations, Fresh;
    if c :| c in calls && GivesLive(c, results, late, env, op) {
      FreshIsPlain(CallOperations(c), {}, op);
      CallObserved(c);
      CallOpsHaveItsPlace(c, op);
    } else {
      var r :| r in results && ResultGives(r, calls, env, op);
      var m := FindCall(calls, r.callId);
      FreshIsPlain(ResultOperations(r, m, env), if m.Some? then KeysOf(CallOperations(m.value)) else {}, op);
      ResultObserved(r, m, env);
      ResultOpsHaveItsPlace(r, m, env, op);
    }
  }

  lemma StoredStems(batches: seq<Batch>, env: Reading, op: Operation)
    requires WellFormed(batches) && FewPending(batches) && op in AllPolls(batches, env).stored
    ensures Stems(op, Merged(batches).calls, Merged(batches).results)
  {
    hide ResultKey, Merged, AllPolls, WellFormed, FewPending, InStore, LateIds, LateKnown, Unanswered;
    var all := Merged(batches);
    var kept := AllKept(all.results, env);
    RunIsExplained(batches, env);
    InStoreStems(all.calls, kept, LateIds(batches, env), env, op);
    KeptMembers(all.results, env);
    if r :| r in kept && StemsFromResult(op, r) {
      var s :| s in all.results && r == KeptForm(s, env);
      assert StemsFromResult(op, s);
    }
  }

  /** What is stored of the earlier polls, under the new session, and of the later ones as though they were all. */
  ghost predicate IsBoth(live: Live, before: Live, after: Live, seen: seq<ToolResult>, k: Rekey)
  {
    && live.pending == before.pending + after.pending
    && live.stored == RenamedOps(before.stored, k) + after.stored
    && forall r :: r in live.recent ==> r in seen
  }

  lemma RetractedIsPending(batches: seq<Batch>, env: Reading, op: Operation)
    requires batches != [] && WellFormed(batches) && FewPending(batches)
    ensures var live, last := AllPolls(batches[..|batches| - 1], env), batches[|batches| - 1];
            op in Extract(live.pending, last.calls, AllKept(last.results, env), env).invalidated ==>
              exists c :: c in Merged(batches).calls && op.provenance == c.provenance
  {
    var init, last := batches[..|batches| - 1], batches[|batches| - 1];
    var before := Merged(init);
    hide ResultKey, Merged, AllPolls, WellFormed, FewPending, LateIds, LateKnown, Unanswered, Extract, InStore,
         FindResult, FailedWith, CallOperations, Plain, NextFits;
    PrefixIsWellFormed(batches);
    PrefixHasFewPending(batches);
    RunIsExplained(init, env);
    NextOfWellFormed(batches, env);
    var live := AllPolls(init, env);
    var kept := AllKept(before.results, env);
    EmittedIs(before.calls, kept, live.pending, Batch(last.calls, AllKept(last.results, env)), env, op);
    if c :| c in live.pending && Retracts(c, AllKept(last.results, env), env, op) {
      UnansweredAreCalls(before.calls, kept);
      CallOpsHaveItsPlace(c, op);
      MergedIs(batches);
      assert c in Merged(batches).calls;
    }
  }

  /** The rows of both parts are well formed as one run attributes them, and each part by itself as the polls do. */
  ghost predicate Parts(early: seq<Batch>, later: seq<Batch>, k: Rekey)
  {
    && Replaces(early, later, k) && FewWaiting(early, later)
    && WellFormed(early) && WellFormed(later)
    && var a, b := Merged(early), Merged(later);
       && UniqueResults(a.results + b.results)
       && OwnPlaces(a.calls + b.calls, a.results + b.results)
  }

  lemma PrefixOfParts(early: seq<Batch>, later: seq<Batch>, k: Rekey, m: nat)
    requires Parts(early, later, k) && m <= |later|
    ensures var part := later[..m];
            && WellFormed(part) && FewPending(part) && NoneUnder(part, k.from)
            && Merged(part).calls <= Merged(later).calls && Merged(part).results <= Merged(later).results
  {
    hide Merged, FewPending, Unanswered, WellFormed;
    assert later[..m] + later[m..] == later;
    WellFormedSplit(later[..m], later[m..]);
    MergedConcat(later[..m], later[m..]);
    LaterHasFewPending(early, later, m);
  }

  lemma PrefixStaysUnique(a: seq<ToolResult>, b: seq<ToolResult>, c: seq<ToolResult>, all: seq<ToolResult>)
    requires UniqueResults(a + all) && b + c <= all
    ensures UniqueResults((a + b) + c) && UniqueResults(b + c)
  {
    var some := (a + b) + c;
    assert some == a + (b + c) && b + c == all[..|b + c|];
    assert forall i :: 0 <= i < |some| ==> some[i] == (a + all)[i];
    assert forall i :: 0 <= i < |b + c| ==> (b + c)[i] == some[|a| + i];
  }

  lemma LastOfPart(part: seq<Batch>, session: string)
    requires part != [] && WellFormed(part) && NoneUnder(part, session)
    ensures var init, last := Merged(part[..|part| - 1]), part[|part| - 1];
            && Merged(part).results == init.results + last.results && AllUnmarked(last.results)
            && (forall c, r :: c in last.calls && r in init.results ==> c.callId != r.callId)
            && Elsewhere(last.calls, session)
            && (forall r :: r in last.results ==> r.sessionId.Some? && r.sessionId != Some(session) && r.callId.Some?)
  {
    PrefixIsWellFormed(part);
    MergedIs(part);
    var init, last := Merged(part[..|part| - 1]), part[|part| - 1];
    hide Merged, Fits, OwnPlaces, NoResultBeforeItsCall;
    LastIsUnmarked(init, last);
    forall c | c in last.calls ensures c in Merged(part).calls && c.callId.Some? {
    }
    forall r | r in last.results ensures r in Merged(part).results && r.callId.Some? {
    }
  }

  lemma ResultsOfParts(early: seq<Batch>, later: seq<Batch>, k: Rekey, m: nat)
    requires Parts(early, later, k) && m < |later|
    ensures var before, part, last := Merged(early), Merged(later[..m]), later[m];
            && UniqueResults((before.results + part.results) + last.results) && AllUnmarked(last.results)
            && UniqueResults(part.results + last.results)
            && (forall c, r :: c in last.calls && r in part.results ==> c.callId != r.callId)
            && Elsewhere(last.calls, k.from)
            && (forall r :: r in last.results ==> r.sessionId.Some? && r.sessionId != Some(k.from) && r.callId.Some?)
  {
    hide FewPending, Unanswered, Fits, OwnPlaces, WellFormed, UniqueResults, AllUnmarked, NoneUnder, Merged, Elsewhere,
         AllUnder, FewWaiting;
    PrefixOfParts(early, later, k, m + 1);
    var part := later[..m + 1];
    assert part[..m] == later[..m] && part[m] == later[m];
    LastOfPart(part, k.from);
    PrefixStaysUnique(Merged(early).results, Merged(later[..m]).results, later[m].results, Merged(later).results);
  }

  lemma NextPendingIs(stale: seq<ToolCall>, waiting: seq<ToolCall>, next: Batch, results: seq<ToolResult>,
                      session: string)
    requires Stale(stale, results, session)
    requires |stale| + |Unanswered(waiting + next.calls, results)| <= MAX_PENDING_TOOL_CALLS
    ensures NextPendingToolCalls(stale + waiting, next.calls, results) ==
            stale + Unanswered(waiting + next.calls, results)
    ensures NextPendingToolCalls(waiting, next.calls, results) == Unanswered(waiting + next.calls, results)
  {
    hide Unanswered, Stale;
    assert (stale + waiting) + next.calls == stale + (waiting + next.calls);
    UnansweredConcat(stale, waiting + next.calls, results);
    StaleStayUnanswered(stale, results, session);
  }

  lemma StoredNext(before: set<Operation>, after: set<Operation>, x: Extraction, y: Extraction, k: Rekey)
    requires AlikeBut(x, y, k.from) && k.from != k.to
    requires forall op :: op in after ==> op.session != k.from
    requires forall op :: op in RenamedOps(before, k) ==> op !in y.invalidated
    ensures RenamedOps(before, k) + after - AsSet(x.invalidated) + AsSet(x.emitted) ==
            RenamedOps(before, k) + (after - AsSet(y.invalidated) + AsSet(y.emitted))
  {
    RenamedAreElsewhere(before, k);
    hide RenamedOps;
    var renamed := RenamedOps(before, k);
    forall op
      ensures op in renamed + after - AsSet(x.invalidated) + AsSet(x.emitted) <==>
              op in renamed + (after - AsSet(y.invalidated) + AsSet(y.emitted))
    {
    }
  }

  lemma RenamedAreElsewhere(operations: set<Operation>, k: Rekey)
    requires k.from != k.to
    ensures forall op :: op in RenamedOps(operations, k) ==> op.session != k.from
  {
  }

  lemma StaleIs(early: seq<Batch>, later: seq<Batch>, k: Rekey, results: seq<ToolResult>, env: Reading)
    requires Parts(early, later, k)
    requires forall r :: r in results ==> r.sessionId.Some? && r.sessionId != Some(k.from) && r.callId.Some?
    ensures var before := Merged(early);
            && AllPolls(early, env).pending == Unanswered(before.calls, AllKept(before.results, env))
            && |AllPolls(early, env).pending| == |Unanswered(before.calls, before.results)|
            && Stale(AllPolls(early, env).pending, results, k.from)
  {
    hide Merged, ResultKey, Unanswered, AllPolls, Fits, OwnPlaces, AllUnmarked, UniqueResults, InStore, LateKnown,
         LateIds;
    var before := Merged(early);
    RunIsExplained(early, env);
    UnansweredKept(before.calls, before.results, env);
    UnansweredAreCalls(before.calls, AllKept(before.results, env));
    assert UniqueCalls(before.calls);
    forall c | c in before.calls ensures c.callId.Some? {
    }
  }

  lemma {:induction false} BeforeReplacement(batches: seq<Batch>, k: Rekey, env: Reading)
    requires |batches| <= k.at
    ensures RekeyedPolls(batches, k, env) == AllPolls(batches, env)
  {
    hide Poll;
    if batches != [] {
      BeforeReplacement(batches[..|batches| - 1], k, env);
    }
  }

  lemma NothingAfter(early: seq<Batch>, later: seq<Batch>, k: Rekey, env: Reading)
    requires Parts(early, later, k)
    ensures var before := AllPolls(early, env);
            IsBoth(before.(stored := RenamedOps(before.stored, k)), before, AllPolls(later[..0], env),
                   AllKept(Merged(early).results + Merged(later[..0]).results, env), k)
  {
    hide ResultKey, Unanswered, Poll, Fits, OwnPlaces, AllUnmarked, UniqueResults, InStore, LateKnown, LateIds;
    var before := AllPolls(early, env);
    RunIsExplained(early, env);
    var results := Merged(early).results;
    assert results + [] == results;
    assert before.pending + [] == before.pending;
    assert RenamedOps(before.stored, k) + {} == RenamedOps(before.stored, k);
  }

  lemma MarkedAlike(early: seq<Batch>, later: seq<Batch>, k: Rekey, m: nat, recent: seq<ToolResult>, env: Reading)
    requires Parts(early, later, k) && m < |later|
    requires forall r :: r in recent ==> r in AllKept(Merged(early).results + Merged(later[..m]).results, env)
    ensures Marked(recent, later[m].results, env) == AllKept(later[m].results, env)
    ensures Marked(AllPolls(later[..m], env).recent, later[m].results, env) == AllKept(later[m].results, env)
  {
    hide Merged, ResultKey, Unanswered, AllPolls, Fits, OwnPlaces, AllUnmarked, UniqueResults, InStore, LateKnown,
         LateIds, WellFormed, FewPending, FewWaiting, Marked, Parts, AllKept, Elsewhere;
    ResultsOfParts(early, later, k, m);
    PrefixOfParts(early, later, k, m);
    RunIsExplained(later[..m], env);
    MarkedNext(Batch([], Merged(early).results + Merged(later[..m]).results), later[m], recent, env);
    MarkedNext(Merged(later[..m]), later[m], AllPolls(later[..m], env).recent, env);
  }

  lemma PendingElsewhere(early: seq<Batch>, later: seq<Batch>, k: Rekey, m: nat, env: Reading)
    requires Parts(early, later, k) && m < |later|
    ensures var after, part, next := AllPolls(later[..m], env), Merged(later[..m]), later[m];
            && Elsewhere(after.pending + next.calls, k.from)
            && Unanswered(after.pending + next.calls, AllKept(next.results, env)) ==
               Unanswered(part.calls + next.calls, AllKept(part.results + next.results, env))
  {
    var part, next := Merged(later[..m]), later[m];
    hide Merged, ResultKey, Unanswered, AllPolls, Fits, OwnPlaces, AllUnmarked, UniqueResults, InStore, LateKnown,
         LateIds, WellFormed, FewPending, FewWaiting, Parts, AllKept;
    ResultsOfParts(early, later, k, m);
    PrefixOfParts(early, later, k, m);
    RunIsExplained(later[..m], env);
    UnansweredNext(part, next, env);
    UnansweredAreCalls(part.calls, AllKept(part.results, env));
    IdentifiedElsewhere(later[..m], k.from);
  }

  /** What both readings of the next poll see: the same marked results, and rows of other sessions only. */
  lemma NextIsAlike(early: seq<Batch>, later: seq<Batch>, k: Rekey, m: nat, live: Live, env: Reading)
    requires Parts(early, later, k) && m < |later|
    requires IsBoth(live, AllPolls(early, env), AllPolls(later[..m], env),
                    AllKept(Merged(early).results + Merged(later[..m]).results, env), k)
    ensures var after, next := AllPolls(later[..m], env), later[m];
            var stale, kept := AllPolls(early, env).pending, AllKept(next.results, env);
            && Marked(live.recent, next.results, env) == kept && Marked(after.recent, next.results, env) == kept
            && Stale(stale, kept, k.from) && Elsewhere(after.pending + next.calls, k.from)
            && |stale| == Waiting(early, |early|)
            && Unanswered(after.pending + next.calls, kept) ==
               Unanswered(Merged(later[..m]).calls + next.calls,
                          AllKept(Merged(later[..m]).results + next.results, env))
  {
    hide Merged, ResultKey, Unanswered, AllPolls, UniqueResults, Marked, Parts, AllKept, Elsewhere, Stale;
    MarkedAlike(early, later, k, m, live.recent, env);
    PendingElsewhere(early, later, k, m, env);
    ResultsOfParts(early, later, k, m);
    KeptElsewhere(later[m].results, k.from, env);
    StaleIs(early, later, k, AllKept(later[m].results, env), env);
    assert early[..|early|] == early;
  }

  lemma KeptElsewhere(results: seq<ToolResult>, session: string, env: Reading)
    requires forall r :: r in results ==> r.sessionId.Some? && r.sessionId != Some(session) && r.callId.Some?
    ensures forall r :: r in AllKept(results, env) ==>
              r.sessionId.Some? && r.sessionId != Some(session) && r.callId.Some?
  {
    hide ResultKey;
    KeptMembers(results, env);
  }

  lemma IdentifiedElsewhere(batches: seq<Batch>, session: string)
    requires WellFormed(batches) && NoneUnder(batches, session)
    ensures Elsewhere(Merged(batches).calls, session)
  {
    hide Merged;
  }

  lemma PendingOfBoth(early: seq<Batch>, later: seq<Batch>, k: Rekey, m: nat, stale: seq<ToolCall>,
                      waiting: seq<ToolCall>, kept: seq<ToolResult>, env: Reading)
    requires Parts(early, later, k) && m < |later|
    requires var part, next := Merged(later[..m]), later[m];
             && Stale(stale, kept, k.from) && |stale| == Waiting(early, |early|)
             && Unanswered(waiting + next.calls, kept) ==
                Unanswered(part.calls + next.calls, AllKept(part.results + next.results, env))
    ensures var next := later[m];
            NextPendingToolCalls(stale + waiting, next.calls, kept) ==
            stale + NextPendingToolCalls(waiting, next.calls, kept)
  {
    var part, next := Merged(later[..m]), later[m];
    assert later[..m + 1][..m] == later[..m] && later[..m + 1][m] == next;
    MergedIs(later[..m + 1]);
    hide ResultKey, Unanswered, Merged, Stale, Replaces, WellFormed, OwnPlaces, UniqueResults, FewPending,
         NextPendingToolCalls;
    UnansweredKept(part.calls + next.calls, part.results + next.results, env);
    assert early[..|early|] == early;
    assert |Unanswered(waiting + next.calls, kept)| == Waiting(later, m + 1);
    NextPendingIs(stale, waiting, next, kept, k.from);
  }

  /** A row of the earlier polls and a call of the later ones stand in different places. */
  lemma PlacesOfParts(a: Batch, b: Batch, op: Operation, c: ToolCall)
    requires OwnPlaces(a.calls + b.calls, a.results + b.results) && Stems(op, a.calls, a.results) && c in b.calls
    ensures op.provenance != c.provenance
  {
    var calls := a.calls + b.calls;
    var j :| 0 <= j < |b.calls| && b.calls[j] == c;
    assert calls[|a.calls| + j] == c && c in calls;
    if d :| d in a.calls && StemsFromCall(op, d) {
      var i :| 0 <= i < |a.calls| && a.calls[i] == d;
      assert calls[i] == d;
    } else {
      var r :| r in a.results && StemsFromResult(op, r);
      assert r in a.results + b.results;
    }
  }

  lemma LaterAreElsewhere(early: seq<Batch>, later: seq<Batch>, k: Rekey, m: nat, env: Reading, op: Operation)
    requires Parts(early, later, k) && m <= |later| && op in AllPolls(later[..m], env).stored
    ensures op.session != k.from
  {
    hide Merged, WellFormed, FewPending, AllPolls, Stems, Parts;
    PrefixOfParts(early, later, k, m);
    StoredStems(later[..m], env, op);
    StemsElsewhere(op, later[..m], k.from);
  }

  lemma RetractedLater(early: seq<Batch>, later: seq<Batch>, k: Rekey, m: nat, env: Reading, op: Operation)
    requires Parts(early, later, k) && m < |later|
    ensures op in Extract(AllPolls(later[..m], env).pending, later[m].calls, AllKept(later[m].results, env),
        env).invalidated
            ==> exists c :: c in Merged(later).calls && op.provenance == c.provenance
  {
    var more := later[..m + 1];
    assert more[..m] == later[..m] && more[m] == later[m];
    hide ResultKey, Merged, WellFormed, FewPending, AllPolls, Extract, Parts, NoneUnder, AllKept;
    PrefixOfParts(early, later, k, m + 1);
    RetractedIsPending(more, env, op);
  }

  /** What later polls retract is nothing that earlier polls put in. */
  lemma EarlierAreKept(early: seq<Batch>, later: seq<Batch>, k: Rekey, m: nat, env: Reading, op: Operation)
    requires Parts(early, later, k) && m < |later|
    requires op in RenamedOps(AllPolls(early, env).stored, k)
    ensures var part, next := later[..m], later[m];
            op !in Extract(AllPolls(part, env).pending, next.calls, AllKept(next.results, env), env).invalidated
  {
    var was :| was in AllPolls(early, env).stored && RenamedOp(was, k) == op;
    assert op.provenance == was.provenance;
    var a, b := Merged(early), Merged(later);
    assert OwnPlaces(a.calls + b.calls, a.results + b.results) && WellFormed(early) && FewPending(early);
    hide Merged, WellFormed, FewPending, AllPolls, Extract, OwnPlaces, Stems, Parts, AllKept, RenamedOps;
    StoredStems(early, env, was);
    RetractedLater(early, later, k, m, env, op);
    if c :| c in b.calls && op.provenance == c.provenance {
      PlacesOfParts(a, b, was, c);
    }
  }

  lemma StoredOfBoth(early: seq<Batch>, later: seq<Batch>, k: Rekey, m: nat, kept: seq<ToolResult>, x: Extraction,
                     y: Extraction, env: Reading)
    requires Parts(early, later, k) && m < |later| && AlikeBut(x, y, k.from)
    requires var part, next := later[..m], later[m];
             kept == AllKept(next.results, env) && y == Extract(AllPolls(part, env).pending, next.calls, kept, env)
    ensures var before, after := AllPolls(early, env), AllPolls(later[..m], env);
            RenamedOps(before.stored, k) + after.stored - AsSet(x.invalidated) + AsSet(x.emitted) ==
            RenamedOps(before.stored, k) + (after.stored - AsSet(y.invalidated) + AsSet(y.emitted))
  {
    assert k.from != k.to;
    hide AllPolls, Extract, AlikeBut, RenamedOps, Parts, AsSet;
    var before, after := AllPolls(early, env), AllPolls(later[..m], env);
    forall op | op in after.stored ensures op.session != k.from {
      LaterAreElsewhere(early, later, k, m, env, op);
    }
    forall op | op in RenamedOps(before.stored, k) ensures op !in y.invalidated {
      EarlierAreKept(early, later, k, m, env, op);
    }
    StoredNext(before.stored, after.stored, x, y, k);
  }

  lemma StemsElsewhere(op: Operation, batches: seq<Batch>, session: string)
    requires Stems(op, Merged(batches).calls, Merged(batches).results) && NoneUnder(batches, session)
    ensures op.session != session
  {
    hide Merged;
  }

  lemma SeenByBoth(early: seq<Batch>, later: seq<Batch>, m: nat, recent: seq<ToolResult>, kept: seq<ToolResult>,
                   env: Reading)
    requires m < |later| && kept == AllKept(later[m].results, env)
    requires forall r :: r in recent ==>
               r in AllKept(Merged(early).results + Merged(later[..m]).results, env)
    ensures forall r :: r in NextRecentToolResults(recent, kept) ==>
              r in AllKept(Merged(early).results + Merged(later[..m + 1]).results, env)
  {
    var before := Merged(early).results;
    assert later[..m + 1][..m] == later[..m] && later[..m + 1][m] == later[m];
    MergedIs(later[..m + 1]);
    hide ResultKey, Merged, AllKept, LastN;
    Assoc(before, Merged(later[..m]).results, later[m].results);
    AllKeptConcat(before + Merged(later[..m]).results, later[m].results, env);
    LastNMembers(recent + kept, MAX_RECENT_TOOL_RESULTS);
  }

  lemma LastNMembers<T>(s: seq<T>, n: nat)
    ensures forall x :: x in LastN(s, n) ==> x in s
  {
  }

  lemma OneMoreOfBoth(early: seq<Batch>, later: seq<Batch>, k: Rekey, m: nat, live: Live, env: Reading)
    requires Parts(early, later, k) && m < |later|
    requires IsBoth(live, AllPolls(early, env), AllPolls(later[..m], env),
                    AllKept(Merged(early).results + Merged(later[..m]).results, env), k)
    ensures IsBoth(Poll(live, later[m], env), AllPolls(early, env),
                   AllPolls(later[..m + 1], env),
                   AllKept(Merged(early).results + Merged(later[..m + 1]).results, env), k)
  {
    var part, more, next := later[..m], later[..m + 1], later[m];
    var before, after, kept := AllPolls(early, env), AllPolls(part, env), AllKept(next.results, env);
    assert more[..m] == part && more[m] == next;
    assert AllPolls(more, env) == Poll(after, next, env);
    hide Merged, ResultKey, Unanswered, AllPolls, Marked, Extract, Stale, Elsewhere, RenamedOps, Parts, AlikeBut, AsSet;
    NextIsAlike(early, later, k, m, live, env);
    ExtractAlike(before.pending, after.pending, next.calls, kept, k.from, env);
    PendingOfBoth(early, later, k, m, before.pending, after.pending, kept, env);
    StoredOfBoth(early, later, k, m, kept, Extract(live.pending, next.calls, kept, env),
                 Extract(after.pending, next.calls, kept, env), env);
    SeenByBoth(early, later, m, live.recent, kept, env);
  }

  function Entering(early: seq<Batch>, later: seq<Batch>, k: Rekey, m: nat, env: Reading): Live
    requires m <= |later|
  {
    var live := RekeyedPolls(early + later[..m], k, env);
    if m == 0 then live.(stored := RenamedOps(live.stored, k)) else live
  }

  lemma EnteringFirst(early: seq<Batch>, later: seq<Batch>, k: Rekey, env: Reading)
    requires |early| == k.at
    ensures var live := AllPolls(early, env);
            Entering(early, later, k, 0, env) == live.(stored := RenamedOps(live.stored, k))
  {
    hide RenamedOps;
    assert early + later[..0] == early;
    BeforeReplacement(early, k, env);
  }

  lemma EnteringNext(early: seq<Batch>, later: seq<Batch>, k: Rekey, m: nat, env: Reading)
    requires |early| == k.at && m < |later|
    ensures Entering(early, later, k, m + 1, env) == Poll(Entering(early, later, k, m, env), later[m], env)
  {
    hide Poll, RenamedOps;
    var some := early + later[..m + 1];
    assert later[..m + 1] == later[..m] + [later[m]];
    assert some == (early + later[..m]) + [later[m]];
    assert some[..k.at + m] == early + later[..m] && some[k.at + m] == later[m];
  }

  /** The polls after the replacement go on as though they were all, but for the renamed store and the stale calls. */
  lemma {:induction false} TwoRuns(early: seq<Batch>, later: seq<Batch>, k: Rekey, m: nat, env: Reading)
    requires Parts(early, later, k) && m <= |later|
    ensures IsBoth(Entering(early, later, k, m, env), AllPolls(early, env), AllPolls(later[..m], env),
                   AllKept(Merged(early).results + Merged(later[..m]).results, env), k)
  {
    assert |early| == k.at;
    hide Parts, Poll, RenamedOps, Merged, ResultKey, AllKept, IsBoth, AllPolls, Entering;
    if m == 0 {
      EnteringFirst(early, later, k, env);
      NothingAfter(early, later, k, env);
    } else {
      TwoRuns(early, later, k, m - 1, env);
      EnteringNext(early, later, k, m - 1, env);
      OneMoreOfBoth(early, later, k, m - 1, Entering(early, later, k, m - 1, env), env);
    }
  }

  // ---- The earlier polls under the new session ----

  ghost predicate RowsUnder(calls: seq<ToolCall>, results: seq<ToolResult>, session: string)
  {
    && (forall c :: c in calls ==> c.sessionId == Some(session))
    && forall r :: r in results ==> r.sessionId == Some(session)
  }

  lemma AnsweredAlike(results: seq<ToolResult>, c: ToolCall, k: Rekey)
    requires c.sessionId == Some(k.from) && forall r :: r in results ==> r.sessionId == Some(k.from)
    ensures (exists r :: r in RenamedResults(results, k) && Answers(r, RenamedCall(c, k))) <==>
            exists r :: r in results && Answers(r, c)
  {
    var rs := RenamedResults(results, k);
    if r :| r in rs && Answers(r, RenamedCall(c, k)) {
      var i :| 0 <= i < |rs| && rs[i] == r;
      assert results[i] in results && Answers(results[i], c);
    }
    if r :| r in results && Answers(r, c) {
      var i :| 0 <= i < |results| && results[i] == r;
      assert rs[i] in rs && Answers(rs[i], RenamedCall(c, k));
    }
  }

  lemma {:induction false} UnansweredRenamed(calls: seq<ToolCall>, results: seq<ToolResult>, k: Rekey)
    requires RowsUnder(calls, results, k.from)
    ensures |Unanswered(RenamedCalls(calls, k), RenamedResults(results, k))| == |Unanswered(calls, results)|
  {
    hide Answers;
    if calls != [] {
      var n := |calls| - 1;
      Snoc(calls);
      assert calls[n] in calls;
      UnansweredRenamed(calls[..n], results, k);
      AnsweredAlike(results, calls[n], k);
      assert RenamedCalls(calls, k)[..n] == RenamedCalls(calls[..n], k);
    }
  }

  lemma RenamedHasFewPending(batches: seq<Batch>, k: Rekey)
    requires AllUnder(batches, k.from) && FewPending(batches)
    ensures FewPending(RenamedBatches(batches, k))
  {
    hide Unanswered, Merged;
    forall n: nat | n <= |batches|
      ensures Waiting(RenamedBatches(batches, k), n) <= MAX_PENDING_TOOL_CALLS
    {
      var part := batches[..n];
      assert Waiting(batches, n) <= MAX_PENDING_TOOL_CALLS;
      assert RenamedBatches(batches, k)[..n] == RenamedBatches(part, k);
      assert part + batches[n..] == batches;
      MergedConcat(part, batches[n..]);
      MergedRenamed(part, k);
      assert RowsUnder(Merged(part).calls, Merged(part).results, k.from) by { hide Merged; }
      UnansweredRenamed(Merged(part).calls, Merged(part).results, k);
    }
  }

  /** The same observations under another session. */
  function Under(observed: seq<Observed>, session: string): (renamed: seq<Observed>)
    ensures |renamed| == |observed| && forall i :: 0 <= i < |observed| ==>
        renamed[i] == ObservedUnder(observed[i], session)
  {
    seq(|observed|, i requires 0 <= i < |observed| => ObservedUnder(observed[i], session))
  }

  function ObservedUnder(o: Observed, session: string): Observed
  {
    Observed(o.operation.(session := session), o.key.(session := session))
  }

  lemma {:induction false} KeysUnder(observed: seq<Observed>, from: string, to: string, key: Key)
    requires key.session == from && forall o :: o in observed ==> o.key.session == from
    ensures key.(session := to) in KeysOf(Under(observed, to)) <==> key in KeysOf(observed)
  {
    var renamed := Under(observed, to);
    if key in KeysOf(observed) {
      var i :| 0 <= i < |observed| && observed[i].key == key;
      assert renamed[i] in renamed && renamed[i].key == key.(session := to);
    }
    if key.(session := to) in KeysOf(renamed) {
      var i :| 0 <= i < |renamed| && renamed[i].key == key.(session := to);
      assert observed[i] in observed && observed[i].key == key;
    }
  }

  lemma {:induction false} FreshUnder(observed: seq<Observed>, seen: set<Key>, other: set<Key>, from: string,
                                      to: string, op: Operation)
    requires forall o :: o in observed ==> o.key.session == from && o.operation.session == from
    requires forall o :: o in observed ==> (o.key in seen <==> o.key.(session := to) in other)
    ensures op in Fresh(Under(observed, to), other) <==>
        op.session == to && op.(session := from) in Fresh(observed, seen)
  {
    if observed != [] {
      var n := |observed| - 1;
      var init, last := observed[..n], observed[n];
      Snoc(observed);
      assert last in observed;
      FreshUnder(init, seen, other, from, to, op);
      KeysUnder(init, from, to, last.key);
      assert Under(observed, to)[..n] == Under(init, to);
    }
  }

  lemma CallOpsUnder(c: ToolCall, k: Rekey, op: Operation)
    requires c.sessionId == Some(k.from)
    ensures op in CallOps(RenamedCall(c, k)) <==> op.session == k.to && op.(session := k.from) in CallOps(c)
    ensures CallOperations(RenamedCall(c, k)) == Under(CallOperations(c), k.to)
  {
    hide Fresh;
    CallObserved(c);
    assert CallOperations(RenamedCall(c, k)) == Under(CallOperations(c), k.to);
    FreshUnder(CallOperations(c), {}, {}, k.from, k.to, op);
  }

  /** The kept form of a result, under another session and so with another key. */
  lemma ObservedAlike(r: ToolResult, c: ToolCall, k: Rekey, env: Reading)
    requires Blind(env)
    ensures var kept, renamed := KeptForm(r, env), KeptForm(RenamedResult(r, k), env);
            && env.observe(renamed, None) == env.observe(kept, None)
            && env.observe(renamed, Some(RenamedCall(c, k))) == env.observe(kept, Some(c))
  {
    hide ResultKey;
    var kept, renamed := KeptForm(r, env), KeptForm(RenamedResult(r, k), env);
    assert renamed == kept.(sessionId := renamed.sessionId, deduplicationKey := renamed.deduplicationKey);
    assert env.observe(renamed, None) == env.observe(kept, None);
    assert env.observe(renamed, Some(RenamedCall(c, k))) == env.observe(kept, Some(RenamedCall(c, k)));
    assert RenamedCall(c, k) == c.(sessionId := RenamedCall(c, k).sessionId);
  }

  lemma ResultOpsUnder(r: ToolResult, m: Option<ToolCall>, k: Rekey, env: Reading, op: Operation)
    requires Blind(env) && r.sessionId == Some(k.from) && (m.Some? ==> m.value.sessionId == Some(k.from))
    ensures var other := if m.Some? then Some(RenamedCall(m.value, k)) else None;
            op in ResultOps(KeptForm(RenamedResult(r, k), env), other, env) <==>
            op.session == k.to && op.(session := k.from) in ResultOps(KeptForm(r, env), m, env)
  {
    hide Fresh, ResultKey, KeysOf;
    var kept, renamed := KeptForm(r, env), KeptForm(RenamedResult(r, k), env);
    var other := if m.Some? then Some(RenamedCall(m.value, k)) else None;
    ObservedAlike(r, if m.Some? then m.value else ToolCall(None, None, None, None, [], r.provenance), k, env);
    var observed := ResultOperations(kept, m, env);
    ResultObserved(kept, m, env);
    assert ResultOperations(renamed, other, env) == Under(observed, k.to);
    var seen := if m.Some? then KeysOf(CallOperations(m.value)) else {};
    var others := if m.Some? then KeysOf(CallOperations(RenamedCall(m.value, k))) else {};
    if m.Some? {
      CallObserved(m.value);
      CallOpsUnder(m.value, k, op);
      forall o | o in observed ensures o.key in seen <==> o.key.(session := k.to) in others {
        KeysUnder(CallOperations(m.value), k.from, k.to, o.key);
      }
    }
    hide Blind, ResultOperations, CallOperations;
    FreshUnder(observed, seen, others, k.from, k.to, op);
  }

  lemma {:induction false} FindCallRenamed(calls: seq<ToolCall>, id: Option<string>, k: Rekey)
    ensures FindCall(RenamedCalls(calls, k), id) ==
            match FindCall(calls, id) { case Some(c) => Some(RenamedCall(c, k)) case None => None }
  {
    if calls != [] {
      var n := |calls| - 1;
      FindCallRenamed(calls[..n], id, k);
      assert RenamedCalls(calls, k)[..n] == RenamedCalls(calls[..n], k);
    }
  }

  lemma {:induction false} FindResultRenamed(results: seq<ToolResult>, id: Option<string>, k: Rekey)
    ensures FindResult(RenamedResults(results, k), id) ==
            match FindResult(results, id) { case Some(r) => Some(RenamedResult(r, k)) case None => None }
  {
    if results != [] {
      var n := |results| - 1;
      FindResultRenamed(results[..n], id, k);
      assert RenamedResults(results, k)[..n] == RenamedResults(results[..n], k);
    }
  }

  lemma CallGivesUnder(c: ToolCall, results: seq<ToolResult>, late: set<Option<string>>, k: Rekey, env: Reading,
                       op: Operation)
    requires c.sessionId == Some(k.from)
    ensures GivesLive(RenamedCall(c, k), AllKept(RenamedResults(results, k), env), late, env, op) <==>
            op.session == k.to && GivesLive(c, AllKept(results, env), late, env, op.(session := k.from))
  {
    hide CallOps, FindResult, ResultKey, AllKept, StatusFails;
    CallOpsUnder(c, k, op);
    FindKept(RenamedResults(results, k), c.callId, env);
    FindKept(results, c.callId, env);
    FindResultRenamed(results, c.callId, k);
  }

  lemma ResultGivesUnder(r: ToolResult, calls: seq<ToolCall>, k: Rekey, env: Reading, op: Operation)
    requires Blind(env) && r.sessionId == Some(k.from) && forall c :: c in calls ==> c.sessionId == Some(k.from)
    ensures ResultGives(KeptForm(RenamedResult(r, k), env), RenamedCalls(calls, k), env, op) <==>
            op.session == k.to && ResultGives(KeptForm(r, env), calls, env, op.(session := k.from))
  {
    hide ResultOps, FindCall, ResultKey, StatusFails, Blind;
    FindCallRenamed(calls, r.callId, k);
    ResultOpsUnder(r, FindCall(calls, r.callId), k, env, op);
  }

  lemma InStoreUnder(calls: seq<ToolCall>, results: seq<ToolResult>, late: set<Option<string>>, k: Rekey, env: Reading,
                     op: Operation)
    requires Blind(env) && RowsUnder(calls, results, k.from)
    ensures InStore(RenamedCalls(calls, k), AllKept(RenamedResults(results, k), env), late, env, op) <==>
            op.session == k.to && InStore(calls, AllKept(results, env), late, env, op.(session := k.from))
  {
    hide GivesLive, ResultGives, KeptForm, Blind, RenamedCall, RenamedResult;
    var cs, rs := RenamedCalls(calls, k), AllKept(RenamedResults(results, k), env);
    forall i | 0 <= i < |calls|
      ensures GivesLive(cs[i], rs, late, env, op) <==>
              op.session == k.to && GivesLive(calls[i], AllKept(results, env), late, env, op.(session := k.from))
    {
      assert calls[i] in calls;
      CallGivesUnder(calls[i], results, late, k, env, op);
    }
    forall i | 0 <= i < |results|
      ensures ResultGives(rs[i], cs, env, op) <==>
              op.session == k.to && ResultGives(AllKept(results, env)[i], calls, env, op.(session := k.from))
    {
      assert results[i] in results;
      ResultGivesUnder(results[i], calls, k, env, op);
    }
    InStoreByIndex(cs, rs, late, env, op);
    InStoreByIndex(calls, AllKept(results, env), late, env, op.(session := k.from));
  }

  lemma InStoreByIndex(calls: seq<ToolCall>, results: seq<ToolResult>, late: set<Option<string>>, env: Reading,
                       op: Operation)
    ensures InStore(calls, results, late, env, op) <==>
            || (exists i :: 0 <= i < |calls| && GivesLive(calls[i], results, late, env, op))
            || (exists i :: 0 <= i < |results| && ResultGives(results[i], calls, env, op))
  {
    hide GivesLive, ResultGives;
    if c :| c in calls && GivesLive(c, results, late, env, op) {
      var i :| 0 <= i < |calls| && calls[i] == c;
      assert GivesLive(calls[i], results, late, env, op);
    }
    if r :| r in results && ResultGives(r, calls, env, op) {
      var i :| 0 <= i < |results| && results[i] == r;
      assert ResultGives(results[i], calls, env, op);
    }
  }

  lemma {:induction false} LateUnder(batches: seq<Batch>, k: Rekey, env: Reading, id: Option<string>)
    ensures id in LateIds(RenamedBatches(batches, k), env) <==> id in LateIds(batches, env)
  {
    hide LateIds, Merged, FindResult;
    if batches == [] {
      NothingIsLate(k, env);
    } else {
      var n := |batches| - 1;
      var renamed := RenamedBatches(batches, k);
      assert renamed[..n] == RenamedBatches(batches[..n], k);
      LateUnder(batches[..n], k, env, id);
      LateNext(batches, env, id);
      LateNext(renamed, env, id);
      MergedRenamed(batches[..n], k);
      FindResultRenamed(batches[n].results, id, k);
      CallIdsRenamed(Merged(batches[..n]).calls, k, id);
    }
  }

  lemma NothingIsLate(k: Rekey, env: Reading)
    ensures LateIds(RenamedBatches([], k), env) == LateIds([], env)
  {
    assert RenamedBatches([], k) == [];
  }

  lemma CallIdsRenamed(calls: seq<ToolCall>, k: Rekey, id: Option<string>)
    ensures (exists c :: c in RenamedCalls(calls, k) && c.callId == id) <==> exists c :: c in calls && c.callId == id
  {
    var cs := RenamedCalls(calls, k);
    if c :| c in cs && c.callId == id {
      var i :| 0 <= i < |cs| && cs[i] == c;
      assert calls[i] in calls;
    }
    if c :| c in calls && c.callId == id {
      var i :| 0 <= i < |calls| && calls[i] == c;
      assert cs[i] in cs;
    }
  }

  /** Renaming the store afterwards leaves what the polls would have left under the new session. */
  lemma EarlyUnderNew(early: seq<Batch>, k: Rekey, env: Reading)
    requires AllUnder(early, k.from) && WellFormed(RenamedBatches(early, k)) && FewPending(early) && Blind(env)
    requires k.from != k.to
    ensures AllPolls(RenamedBatches(early, k), env).stored == RenamedOps(AllPolls(early, env).stored, k)
    ensures WellFormed(early) && FewPending(RenamedBatches(early, k))
  {
    hide Merged, ResultKey, AllPolls, WellFormed, FewPending, InStore, Blind, LateIds, Unanswered, LateKnown;
    RenamedIsWellFormed(early, k);
    RenamedHasFewPending(early, k);
    RunIsExplained(early, env);
    RunIsExplained(RenamedBatches(early, k), env);
    MergedRenamed(early, k);
    var all, stored := Merged(early), AllPolls(early, env).stored;
    assert LateIds(RenamedBatches(early, k), env) == LateIds(early, env) by {
      forall id ensures id in LateIds(RenamedBatches(early, k), env) <==> id in LateIds(early, env) {
        LateUnder(early, k, env, id);
      }
    }
    assert RowsUnder(all.calls, all.results, k.from);
    forall op ensures op in AllPolls(RenamedBatches(early, k), env).stored <==> op in RenamedOps(stored, k) {
      InStoreUnder(all.calls, all.results, LateIds(early, env), k, env, op);
      RenamedMembers(early, stored, k, env, op);
    }
  }

  lemma RenamedMembers(early: seq<Batch>, stored: set<Operation>, k: Rekey, env: Reading, op: Operation)
    requires AllUnder(early, k.from) && WellFormed(early) && FewPending(early) && stored == AllPolls(early, env).stored
    ensures op in RenamedOps(stored, k) <==> op.session == k.to && op.(session := k.from) in stored
  {
    hide Merged, WellFormed, FewPending, AllPolls;
    var was := op.(session := k.from);
    if was in stored && op.session == k.to {
      assert RenamedOp(was, k) == op;
    }
    if op in RenamedOps(stored, k) {
      var some :| some in stored && RenamedOp(some, k) == op;
      StoredStems(early, env, some);
      assert some.session == k.from;
    }
  }
}
