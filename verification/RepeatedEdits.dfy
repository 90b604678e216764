/** One file edited over and over by calls and results without ids: how many operations are left, src/normalize.rs. */
module RepeatedEdits {
  import opened Wrappers
  import opened Correlation
  import opened FileOperations
  import FileOperationReplacements
  import opened CallFailures
  import opened UnidentifiedOperations

  // ---- The log ----

  ghost predicate IsEdit(targets: seq<Target>, m: Named)
  {
    |targets| == 1 && targets[0].identity == m.path && targets[0].operation == m.kind
  }

  /** No row has an id or fails, and each names the one operation once. */
  ghost predicate AreEdits(calls: seq<ToolCall>, results: seq<ToolResult>, m: Named, env: Reading)
  {
    && (forall c :: c in calls ==>
          && c.callId.None? && c.sessionId == Some(m.session) && IsEdit(c.targets, m)
          && !(c.status.Some? && env.statusFails(c.status.value)))
    && forall r :: r in results ==>
         && r.callId.None? && r.sessionId == Some(m.session) && IsEdit(env.observe(r, None), m)
         && !r.isDuplicate && !SaysFailure(r, env)
  }

  function EditOfCall(c: ToolCall, m: Named): Operation
    requires c.targets != []
  {
    Operation(m.session, c.turnId, c.targets[0].path, m.kind, c.provenance)
  }

  ghost function EditOfResult(r: ToolResult, m: Named, env: Reading): Operation
    requires env.observe(r, None) != []
  {
    Operation(m.session, r.turnId, env.observe(r, None)[0].path, m.kind, r.provenance)
  }

  /** The calls' lines, in order. */
  function CallLines(calls: seq<ToolCall>): (lines: seq<nat>)
    ensures |lines| == |calls| && forall k :: 0 <= k < |calls| ==> lines[k] == calls[k].provenance.line
  {
    seq(|calls|, k requires 0 <= k < |calls| => calls[k].provenance.line)
  }

  /** How many of the first n results repeat a call: each one for which an earlier call is not repeated yet. */
  function Repeated(calls: seq<ToolCall>, results: seq<ToolResult>, n: nat): nat
    requires n <= |results|
  {
    if n == 0 then 0
    else
      var before := Repeated(calls, results, n - 1);
      if before < Before(CallLines(calls), results[n - 1].provenance.line) then before + 1 else before
  }

  // ---- No call fails ----

  lemma NoneFails(calls: seq<ToolCall>, results: seq<ToolResult>, m: Named, env: Reading, c: ToolCall)
    requires AreEdits(calls, results, m, env) && c in calls
    ensures !CallFails(results, calls, c, env)
  {
    CallFailsWhenTold(results, calls, c, env);
    hide CallFails, SaysFailure, Reports, IsEdit;
  }

  // ---- What is announced ----

  lemma EditCounts(targets: seq<Target>, m: Named, n: Named)
    requires IsEdit(targets, m)
    ensures Count(targets, n) == if n.path == m.path && n.kind == m.kind then 1 else 0
  {
    assert targets[..0] == [];
    assert Count(targets[..0], n) == 0;
  }

  lemma {:induction false} EditLines(calls: seq<ToolCall>, m: Named, failed: ToolCall -> bool)
    requires forall c :: c in calls ==>
               c.callId.None? && c.sessionId == Some(m.session) && IsEdit(c.targets, m) && !failed(c)
    ensures Lines(calls, m, true, failed) == CallLines(calls)
  {
    hide IsEdit;
    if calls != [] {
      var n := |calls| - 1;
      assert calls == calls[..n] + [calls[n]] && calls[n] in calls;
      EditLines(calls[..n], m, failed);
      EditCounts(calls[n].targets, m, m);
      assert CallLines(calls) == CallLines(calls[..n]) + [calls[n].provenance.line];
    }
  }

  lemma EditsAnnounced(calls: seq<ToolCall>, results: seq<ToolResult>, m: Named, env: Reading,
                       failed: ToolCall -> bool)
    requires AreEdits(calls, results, m, env)
    requires forall c :: failed(c) == CallFails(results, calls, c, env)
    ensures Announced([], calls, m, failed) == CallLines(calls)
  {
    hide CallFails, Lines, CallLines;
    forall c | c in calls ensures !failed(c) {
      NoneFails(calls, results, m, env, c);
    }
    EditLines(calls, m, failed);
    NothingOpen(failed);
    assert [] + CallLines(calls) == CallLines(calls);
  }

  lemma EditStands(calls: seq<ToolCall>, results: seq<ToolResult>, m: Named, env: Reading, r: ToolResult)
    requires AreEdits(calls, results, m, env) && r in results
    ensures Stands(r, env) && Names(r, m, env) == 1
  {
    FailureIsTold(r, env);
    EditCounts(env.observe(r, None), m, m);
    hide SaysFailure, ResultIsFailed, Count;
  }

  lemma {:induction false} UsedIsRepeated(calls: seq<ToolCall>, results: seq<ToolResult>, n: nat, m: Named,
                                          env: Reading)
    requires n <= |results| && AreEdits(calls, results, m, env)
    ensures Used(CallLines(calls), results, n, m, env) == Repeated(calls, results, n)
  {
    hide AreEdits, Names, Before, CallLines;
    if n > 0 {
      UsedIsRepeated(calls, results, n - 1, m, env);
      EditStands(calls, results, m, env, results[n - 1]);
    }
  }

  // ---- What single rows give ----

  lemma CallGives(c: ToolCall, m: Named, failed: ToolCall -> bool, op: Operation)
    requires c.sessionId == Some(m.session) && IsEdit(c.targets, m) && !failed(c)
    ensures GivenByCall(op, c, failed) <==> op == EditOfCall(c, m)
  {
    assert IsFirstTarget(c.targets, 0);
    FirstTargetsInRange(c.targets);
    if GivesTarget(c.targets, m.session, c.turnId, c.provenance, op) {
      var i: nat :| IsFirstTarget(c.targets, i) && op == OperationOf(m.session, c.turnId, c.targets[i], c.provenance);
    }
  }

  lemma ResultGives(r: ToolResult, m: Named, all: Named -> seq<nat>, used: Named -> nat, env: Reading, op: Operation)
    requires r.sessionId == Some(m.session) && IsEdit(env.observe(r, None), m) && Stands(r, env)
    ensures GivenByResult(op, r, all, used, env) <==>
            used(m) >= Before(all(m), r.provenance.line) && op == EditOfResult(r, m, env)
  {
    var targets := env.observe(r, None);
    assert targets[..0] == [] && Count(targets[..0], m) == 0;
    UnpairedInRange(targets, m.session, r.provenance.line, all, used);
    hide Before, Stands, Count;
    if GivesUnpaired(targets, m.session, r.turnId, r.provenance, all, used, op) {
      var i: nat :| GivesAt(targets, i, m.session, r.turnId, r.provenance, all, used, op);
    }
    if used(m) >= Before(all(m), r.provenance.line) && op == EditOfResult(r, m, env) {
      assert GivesAt(targets, 0, m.session, r.turnId, r.provenance, all, used, op);
    }
  }

  // ---- The operations left ----

  ghost predicate IsCallEdit(op: Operation, calls: seq<ToolCall>, n: nat, m: Named)
    requires n <= |calls| && forall c :: c in calls ==> c.targets != []
  {
    exists k :: 0 <= k < n && op == EditOfCall(calls[k], m)
  }

  /** The result repeats no call. */
  predicate IsNew(calls: seq<ToolCall>, results: seq<ToolResult>, k: nat)
    requires k < |results|
  {
    Repeated(calls, results, k) >= Before(CallLines(calls), results[k].provenance.line)
  }

  ghost predicate IsResultEdit(op: Operation, calls: seq<ToolCall>, results: seq<ToolResult>, n: nat, m: Named,
                               env: Reading)
    requires n <= |results| && forall r :: r in results ==> env.observe(r, None) != []
  {
    exists k: nat :: k < n && IsNew(calls, results, k) && op == EditOfResult(results[k], m, env)
  }

  function CallEdits(calls: seq<ToolCall>, n: nat, m: Named): set<Operation>
    requires n <= |calls| && forall c :: c in calls ==> c.targets != []
  {
    if n == 0 then {} else CallEdits(calls, n - 1, m) + {EditOfCall(calls[n - 1], m)}
  }

  ghost function ResultEdits(calls: seq<ToolCall>, results: seq<ToolResult>, n: nat, m: Named, env: Reading):
      set<Operation>
    requires n <= |results| && forall r :: r in results ==> env.observe(r, None) != []
  {
    if n == 0 then {}
    else
      ResultEdits(calls, results, n - 1, m, env)
      + if IsNew(calls, results, n - 1) then {EditOfResult(results[n - 1], m, env)} else {}
  }

  lemma NewCallEdit(calls: seq<ToolCall>, n: nat, m: Named)
    requires n < |calls| && Apart(calls) && forall c :: c in calls ==> c.targets != []
    ensures var last := EditOfCall(calls[n], m);
            && !IsCallEdit(last, calls, n, m)
            && forall op :: IsCallEdit(op, calls, n + 1, m) <==> IsCallEdit(op, calls, n, m) || op == last
  {
    assert forall k :: 0 <= k < n ==> calls[k].provenance != calls[n].provenance;
    hide Apart;
  }

  lemma {:induction false} CallEditsAre(calls: seq<ToolCall>, n: nat, m: Named)
    requires n <= |calls| && Apart(calls) && forall c :: c in calls ==> c.targets != []
    ensures |CallEdits(calls, n, m)| == n
    ensures forall op :: op in CallEdits(calls, n, m) <==> IsCallEdit(op, calls, n, m)
  {
    hide Apart, IsCallEdit, EditOfCall;
    if n > 0 {
      CallEditsAre(calls, n - 1, m);
      NewCallEdit(calls, n - 1, m);
    } else {
      NoCallEdit(calls, m);
    }
  }

  lemma NoCallEdit(calls: seq<ToolCall>, m: Named)
    requires forall c :: c in calls ==> c.targets != []
    ensures forall op :: !IsCallEdit(op, calls, 0, m)
  {
  }

  lemma NewEdit(calls: seq<ToolCall>, results: seq<ToolResult>, n: nat, m: Named, env: Reading)
    requires n < |results| && FileOperationReplacements.ResultPlaces(results)
    requires forall r :: r in results ==> env.observe(r, None) != []
    ensures var last := EditOfResult(results[n], m, env);
            && !IsResultEdit(last, calls, results, n, m, env)
            && forall op :: IsResultEdit(op, calls, results, n + 1, m, env) <==>
                            || IsResultEdit(op, calls, results, n, m, env)
                            || (IsNew(calls, results, n) && op == last)
  {
    hide IsNew;
    assert forall k :: 0 <= k < n ==> results[k].provenance != results[n].provenance;
  }

  lemma {:induction false} ResultEditsAre(calls: seq<ToolCall>, results: seq<ToolResult>, n: nat, m: Named,
                                          env: Reading)
    requires n <= |results| && FileOperationReplacements.ResultPlaces(results)
    requires forall r :: r in results ==> env.observe(r, None) != []
    ensures |ResultEdits(calls, results, n, m, env)| == n - Repeated(calls, results, n)
    ensures forall op :: op in ResultEdits(calls, results, n, m, env) <==>
                         IsResultEdit(op, calls, results, n, m, env)
  {
    hide Before, CallLines, IsResultEdit, FileOperationReplacements.ResultPlaces, EditOfResult;
    if n > 0 {
      ResultEditsAre(calls, results, n - 1, m, env);
      NewEdit(calls, results, n - 1, m, env);
    } else {
      NoResultEdit(calls, results, m, env);
    }
  }

  lemma NoResultEdit(calls: seq<ToolCall>, results: seq<ToolResult>, m: Named, env: Reading)
    requires forall r :: r in results ==> env.observe(r, None) != []
    ensures forall op :: !IsResultEdit(op, calls, results, 0, m, env)
  {
  }

  // ---- What an extraction leaves ----

  lemma EditsHaveTargets(calls: seq<ToolCall>, results: seq<ToolResult>, m: Named, env: Reading)
    requires AreEdits(calls, results, m, env)
    ensures forall c :: c in calls ==> c.targets != []
    ensures forall r :: r in results ==> env.observe(r, None) != []
  {
  }

  lemma CallRowLeft(calls: seq<ToolCall>, results: seq<ToolResult>, m: Named, env: Reading, log: string, k: nat,
                    op: Operation)
    requires AreEdits(calls, results, m, env) && OneLog([], calls, results, log) && k < |calls|
    requires op.provenance == calls[k].provenance && calls[k].targets != []
    ensures op in Extract([], calls, results, env).emitted <==> op == EditOfCall(calls[k], m)
  {
    var failed := (c: ToolCall) => CallFails(results, [] + calls, c, env);
    UnidentifiedRowsGive([], calls, results, env, failed, log);
    assert [] + calls == calls && calls[k] in calls;
    NoneFails(calls, results, m, env, calls[k]);
    hide CallFails, Extract, GivenByCall, GivenByResult, OneLog, EditOfCall, SaysFailure;
    CallGives(calls[k], m, failed, op);
  }

  lemma ResultRowLeft(calls: seq<ToolCall>, results: seq<ToolResult>, m: Named, env: Reading, log: string, k: nat,
                      op: Operation)
    requires AreEdits(calls, results, m, env) && OneLog([], calls, results, log) && k < |results|
    requires op.provenance == results[k].provenance && env.observe(results[k], None) != []
    ensures op in Extract([], calls, results, env).emitted <==>
            IsNew(calls, results, k) && op == EditOfResult(results[k], m, env)
  {
    var failed := (c: ToolCall) => CallFails(results, [] + calls, c, env);
    UnidentifiedRowsGive([], calls, results, env, failed, log);
    assert [] + calls == calls && results[k] in results;
    EditsAnnounced(calls, results, m, env, failed);
    UsedIsRepeated(calls, results, k, m, env);
    EditStands(calls, results, m, env, results[k]);
    var all := AllAnnounced([], calls, failed);
    hide CallFails, Extract, GivenByCall, GivenByResult, OneLog, EditOfResult, SaysFailure, Stands, Used, Before,
         Announced;
    ResultGives(results[k], m, all, UsedBy(all, results, k, env), env, op);
  }

  lemma IsLeft(calls: seq<ToolCall>, results: seq<ToolResult>, m: Named, env: Reading, log: string, op: Operation)
    requires AreEdits(calls, results, m, env) && OneLog([], calls, results, log)
    requires (forall c :: c in calls ==> c.targets != []) && forall r :: r in results ==> env.observe(r, None) != []
    ensures op in Extract([], calls, results, env).emitted <==>
            IsCallEdit(op, calls, |calls|, m) || IsResultEdit(op, calls, results, |results|, m, env)
  {
    var emitted := Extract([], calls, results, env).emitted;
    forall k: nat | k < |calls| && op.provenance == calls[k].provenance
      ensures op in emitted <==> op == EditOfCall(calls[k], m) {
      CallRowLeft(calls, results, m, env, log, k, op);
    }
    forall k: nat | k < |results| && op.provenance == results[k].provenance
      ensures op in emitted <==> IsNew(calls, results, k) && op == EditOfResult(results[k], m, env) {
      ResultRowLeft(calls, results, m, env, log, k, op);
    }
    if op in emitted {
      FromSomeRow(calls, results, env, log, op);
    }
    hide AreEdits, OneLog, Extract, IsNew;
  }

  lemma FromSomeRow(calls: seq<ToolCall>, results: seq<ToolResult>, env: Reading, log: string, op: Operation)
    requires OneLog([], calls, results, log) && op in Extract([], calls, results, env).emitted
    ensures || (exists k: nat :: k < |calls| && op.provenance == calls[k].provenance)
            || exists k: nat :: k < |results| && op.provenance == results[k].provenance
  {
    var failed := (c: ToolCall) => CallFails(results, [] + calls, c, env);
    UnidentifiedRowsGive([], calls, results, env, failed, log);
    hide OneLog, Extract, CallFails, GivenByCall, GivenByResult;
    if c :| c in calls && c.provenance == op.provenance {
      var k: nat :| k < |calls| && calls[k] == c;
    } else if r :| r in results && r.provenance == op.provenance {
      var k: nat :| k < |results| && results[k] == r;
    }
  }

  lemma LeftAreEdits(calls: seq<ToolCall>, results: seq<ToolResult>, m: Named, env: Reading, log: string)
    requires AreEdits(calls, results, m, env) && OneLog([], calls, results, log)
    requires (forall c :: c in calls ==> c.targets != []) && forall r :: r in results ==> env.observe(r, None) != []
    ensures forall op :: op in Extract([], calls, results, env).emitted <==>
                         || IsCallEdit(op, calls, |calls|, m)
                         || IsResultEdit(op, calls, results, |results|, m, env)
  {
    hide *;
    forall op ensures op in Extract([], calls, results, env).emitted <==>
                      || IsCallEdit(op, calls, |calls|, m) || IsResultEdit(op, calls, results, |results|, m, env) {
      IsLeft(calls, results, m, env, log, op);
    }
  }

  lemma RowsApart(calls: seq<ToolCall>, results: seq<ToolResult>, log: string)
    requires OneLog([], calls, results, log)
    ensures Apart(calls) && FileOperationReplacements.ResultPlaces(results)
    ensures forall c, r :: c in calls && r in results ==> c.provenance != r.provenance
  {
    LogOrder([], calls, results, log);
    assert [] + calls == calls;
    hide Apart, FileOperationReplacements.ResultPlaces, OneLog;
  }

  lemma UnionIs(emitted: seq<Operation>, a: set<Operation>, b: set<Operation>)
    requires forall op :: op in emitted <==> op in a || op in b
    requires a !! b
    ensures |AsSet(emitted)| == |a| + |b|
  {
    assert AsSet(emitted) == a + b;
  }

  lemma HowManyLeft(calls: seq<ToolCall>, results: seq<ToolResult>, m: Named, env: Reading, log: string)
    requires AreEdits(calls, results, m, env) && OneLog([], calls, results, log)
    ensures |AsSet(Extract([], calls, results, env).emitted)| ==
            |calls| + |results| - Repeated(calls, results, |results|)
  {
    hide *;
    EditsHaveTargets(calls, results, m, env);
    RowsApart(calls, results, log);
    LeftAreEdits(calls, results, m, env, log);
    CallEditsAre(calls, |calls|, m);
    ResultEditsAre(calls, results, |results|, m, env);
    EditsApart(calls, results, m, env);
    UnionIs(Extract([], calls, results, env).emitted, CallEdits(calls, |calls|, m),
            ResultEdits(calls, results, |results|, m, env));
  }

  ghost predicate LeavesCall(emitted: seq<Operation>, c: ToolCall, m: Named)
  {
    c.targets != [] && EditOfCall(c, m) in emitted
  }

  ghost predicate LeavesResult(emitted: seq<Operation>, r: ToolResult, m: Named, env: Reading)
  {
    env.observe(r, None) != [] && EditOfResult(r, m, env) in emitted
  }

  lemma CallIsLeft(calls: seq<ToolCall>, results: seq<ToolResult>, m: Named, env: Reading, log: string, k: nat)
    requires AreEdits(calls, results, m, env) && OneLog([], calls, results, log) && k < |calls|
    ensures LeavesCall(Extract([], calls, results, env).emitted, calls[k], m)
  {
    EditsHaveTargets(calls, results, m, env);
    assert calls[k] in calls;
    hide AreEdits, OneLog, Extract;
    CallRowLeft(calls, results, m, env, log, k, EditOfCall(calls[k], m));
  }

  lemma ResultIsLeft(calls: seq<ToolCall>, results: seq<ToolResult>, m: Named, env: Reading, log: string, k: nat)
    requires AreEdits(calls, results, m, env) && OneLog([], calls, results, log) && k < |results|
    ensures LeavesResult(Extract([], calls, results, env).emitted, results[k], m, env) <==> IsNew(calls, results, k)
  {
    EditsHaveTargets(calls, results, m, env);
    assert results[k] in results;
    hide AreEdits, OneLog, Extract, IsNew;
    ResultRowLeft(calls, results, m, env, log, k, EditOfResult(results[k], m, env));
  }

  /**
   * Every call leaves its operation and a result its own exactly when it repeats no call, so as many are left as
   * there are calls and results less the repetitions.
   */
  lemma OperationsLeft(calls: seq<ToolCall>, results: seq<ToolResult>, m: Named, env: Reading, log: string)
    requires AreEdits(calls, results, m, env) && OneLog([], calls, results, log)
    ensures var emitted := Extract([], calls, results, env).emitted;
            && |AsSet(emitted)| == |calls| + |results| - Repeated(calls, results, |results|)
            && (forall k: nat :: k < |calls| ==> LeavesCall(emitted, calls[k], m))
            && forall k: nat :: k < |results| ==>
                 (LeavesResult(emitted, results[k], m, env) <==>
                    Repeated(calls, results, k) >= Before(CallLines(calls), results[k].provenance.line))
  {
    hide Extract, LeavesCall, LeavesResult, AreEdits, OneLog, Repeated, Before, AsSet;
    HowManyLeft(calls, results, m, env, log);
    forall k: nat | k < |calls| ensures LeavesCall(Extract([], calls, results, env).emitted, calls[k], m) {
      CallIsLeft(calls, results, m, env, log, k);
    }
    forall k: nat | k < |results|
      ensures LeavesResult(Extract([], calls, results, env).emitted, results[k], m, env) <==>
              IsNew(calls, results, k) {
      ResultIsLeft(calls, results, m, env, log, k);
    }
  }

  lemma EditsApart(calls: seq<ToolCall>, results: seq<ToolResult>, m: Named, env: Reading)
    requires forall c, r :: c in calls && r in results ==> c.provenance != r.provenance
    requires (forall c :: c in calls ==> c.targets != []) && forall r :: r in results ==> env.observe(r, None) != []
    ensures forall op ::
              !(IsCallEdit(op, calls, |calls|, m) && IsResultEdit(op, calls, results, |results|, m, env))
  {
    hide IsNew;
  }

  // ---- Calls first, or results first ----

  lemma {:induction false} BeforeAll(lines: seq<nat>, line: nat)
    ensures (forall k :: 0 <= k < |lines| ==> lines[k] < line) ==> Before(lines, line) == |lines|
    ensures (forall k :: 0 <= k < |lines| ==> lines[k] >= line) ==> Before(lines, line) == 0
  {
    if lines != [] {
      BeforeAll(lines[..|lines| - 1], line);
    }
  }

  lemma {:induction false} RepeatedBy(calls: seq<ToolCall>, results: seq<ToolResult>, n: nat)
    requires n <= |results|
    ensures (forall c, r :: c in calls && r in results ==> c.provenance.line < r.provenance.line) ==>
              Repeated(calls, results, n) == if n < |calls| then n else |calls|
    ensures (forall c, r :: c in calls && r in results ==> c.provenance.line >= r.provenance.line) ==>
              Repeated(calls, results, n) == 0
  {
    hide Before;
    if n > 0 {
      RepeatedBy(calls, results, n - 1);
      BeforeAll(CallLines(calls), results[n - 1].provenance.line);
    }
  }

  /** n calls and then m results leave the greater of n and m, the first n results nothing. */
  lemma CallsThenResults(calls: seq<ToolCall>, results: seq<ToolResult>, m: Named, env: Reading, log: string)
    requires AreEdits(calls, results, m, env) && OneLog([], calls, results, log)
    requires forall c, r :: c in calls && r in results ==> c.provenance.line < r.provenance.line
    ensures var emitted := Extract([], calls, results, env).emitted;
            && |AsSet(emitted)| == (if |calls| < |results| then |results| else |calls|)
            && forall k: nat :: k < |results| ==>
                 (LeavesResult(emitted, results[k], m, env) <==> k >= |calls|)
  {
    hide AreEdits, OneLog, Extract, Repeated, Before, LeavesCall, LeavesResult, AsSet;
    OperationsLeft(calls, results, m, env, log);
    RepeatedBy(calls, results, |results|);
    forall k: nat | k < |results| ensures
        Repeated(calls, results, k) >= Before(CallLines(calls), results[k].provenance.line) <==> k >= |calls| {
      RepeatedBy(calls, results, k);
      BeforeAll(CallLines(calls), results[k].provenance.line);
    }
  }

  /** A result before its call repeats nothing: every row leaves its own. */
  lemma ResultsThenCalls(calls: seq<ToolCall>, results: seq<ToolResult>, m: Named, env: Reading, log: string)
    requires AreEdits(calls, results, m, env) && OneLog([], calls, results, log)
    requires forall c, r :: c in calls && r in results ==> r.provenance.line < c.provenance.line
    ensures |AsSet(Extract([], calls, results, env).emitted)| == |calls| + |results|
  {
    hide AreEdits, OneLog, Extract, Repeated, AsSet;
    HowManyLeft(calls, results, m, env, log);
    RepeatedBy(calls, results, |results|);
  }
}
