/** Extraction of file operations from calls and results, and what one poll carries to the next, src/normalize.rs. */
module FileOperations {
  import opened Wrappers
  import opened Slices
  import opened Correlation
  import opened Duplicates

  const MAX_PENDING_TOOL_CALLS: nat := 1024
  const MAX_RECENT_TOOL_RESULTS: nat := MAX_PENDING_TOOL_CALLS

  /** What texts mean: which status texts say failure, what a result's command touches, how a key is spelled. */
  datatype Reading = Reading(
    statusFails: string -> bool,
    observe: (ToolResult, Option<ToolCall>) -> seq<Target>,
    key: KeyParts -> string)

  datatype Operation =
    Operation(session: string, turn: Option<string>, path: string, kind: string, provenance: Provenance)

  datatype Identity = CallId(id: string) | MissingCallId(at: Provenance) | MissingResultId(at: Provenance)

  datatype Key = Key(session: string, identity: Identity, path: string, kind: string)

  datatype Observed = Observed(operation: Operation, key: Key)

  // ---- Failure ----

  predicate StatusFails(status: Option<string>, env: Reading)
  {
    status.Some? && env.statusFails(status.value)
  }

  predicate ResultIsFailed(r: ToolResult, env: Reading)
  {
    if r.exitCode.Some? then r.exitCode.value != 0 else r.outcome == Failed || StatusFails(r.status, env)
  }

  predicate SameCall(left: ToolCall, right: ToolCall)
  {
    && left.callId == right.callId && left.sessionId == right.sessionId && left.turnId == right.turnId
    && left.provenance == right.provenance
  }

  predicate SourcePrecedes(left: Provenance, right: Provenance)
  {
    left.path == right.path && left.line < right.line
  }

  predicate ContextsCompatible(call: ToolCall, r: ToolResult)
  {
    CompatibleContext(r.sessionId, call.sessionId) && CompatibleContext(r.turnId, call.turnId)
  }

  predicate BelongsTo(r: ToolResult, calls: seq<ToolCall>, call: ToolCall)
  {
    && !r.isDuplicate && r.callId == call.callId && ContextsCompatible(call, r)
    && (call.callId.None? || (var m := MatchingCall(calls, r); m.Some? && SameCall(m.value, call)))
  }

  function CandidateResults(results: seq<ToolResult>, calls: seq<ToolCall>, call: ToolCall): seq<ToolResult>
  {
    if results == [] then []
    else
      var last := results[|results| - 1];
      CandidateResults(results[..|results| - 1], calls, call) + if BelongsTo(last, calls, call) then [last] else []
  }

  function ExactResults(results: seq<ToolResult>, call: ToolCall): seq<ToolResult>
  {
    if results == [] then []
    else
      var last := results[|results| - 1];
      ExactResults(results[..|results| - 1], call) + if IsExact(call, last) then [last] else []
  }

  /** How many calls without an id share the context of `call`. */
  function CountUnidentified(calls: seq<ToolCall>, call: ToolCall): nat
  {
    if calls == [] then 0
    else
      var last := calls[|calls| - 1];
      CountUnidentified(calls[..|calls| - 1], call)
      + if last.callId.None? && SameContext(last.sessionId, call.sessionId) && SameContext(last.turnId, call.turnId)
        then 1
        else 0
  }

  function MatchingResults(results: seq<ToolResult>, calls: seq<ToolCall>, call: ToolCall): seq<ToolResult>
  {
    if call.callId.None? && CountUnidentified(calls, call) != 1 then []
    else
      var candidates := CandidateResults(results, calls, call);
      var exact := ExactResults(candidates, call);
      if exact != [] then exact else if |candidates| == 1 then candidates else []
  }

  predicate CallIsFailed(results: seq<ToolResult>, calls: seq<ToolCall>, call: ToolCall, env: Reading)
  {
    var matched := MatchingResults(results, calls, call);
    if exists r :: r in matched && r.exitCode.Some? then
      exists r :: r in matched && r.exitCode.Some? && r.exitCode.value != 0
    else if exists r :: r in matched && r.status.Some? then
      exists r :: r in matched && ResultIsFailed(r, env)
    else
      StatusFails(call.status, env)
  }

  predicate CallHasFailedResult(results: seq<ToolResult>, calls: seq<ToolCall>, call: ToolCall, env: Reading)
  {
    exists r :: r in MatchingResults(results, calls, call) && ResultIsFailed(r, env)
  }

  predicate CallFails(results: seq<ToolResult>, calls: seq<ToolCall>, call: ToolCall, env: Reading)
  {
    CallIsFailed(results, calls, call, env) || CallHasFailedResult(results, calls, call, env)
  }

  // ---- The operations one call or one result names ----

  function Observe(session: Option<string>, turn: Option<string>, at: Provenance, identity: Identity,
                   targets: seq<Target>): seq<Observed>
  {
    if session.None? then []
    else
      seq(|targets|, i requires 0 <= i < |targets| =>
        Observed(Operation(session.value, turn, targets[i].path, targets[i].operation, at),
                 Key(session.value, identity, targets[i].identity, targets[i].operation)))
  }

  function CallIdentity(call: ToolCall): Identity
  {
    if call.callId.Some? then CallId(call.callId.value) else MissingCallId(call.provenance)
  }

  function ResultIdentity(r: ToolResult): Identity
  {
    if r.callId.Some? then CallId(r.callId.value) else MissingResultId(r.provenance)
  }

  function CallOperations(call: ToolCall): seq<Observed>
  {
    Observe(call.sessionId, call.turnId, call.provenance, CallIdentity(call), call.targets)
  }

  function ResultOperations(r: ToolResult, matched: Option<ToolCall>, env: Reading): seq<Observed>
  {
    Observe(r.sessionId, r.turnId, r.provenance, ResultIdentity(r), env.observe(r, matched))
  }

  // ---- The extraction, as three passes ----

  datatype Extraction =
    Extraction(seen: set<Key>, unpaired: seq<Observed>, emitted: seq<Operation>, invalidated: seq<Operation>)

  function Plain(observed: seq<Observed>): seq<Operation>
  {
    if observed == [] then [] else Plain(observed[..|observed| - 1]) + [observed[|observed| - 1].operation]
  }

  /** A call of an earlier poll only claims its keys: its operations were emitted then. */
  function ClaimOne(x: Extraction, call: ToolCall, o: Observed): Extraction
  {
    x.(seen := x.seen + {o.key}, unpaired := if call.callId.None? then x.unpaired + [o] else x.unpaired)
  }

  function ClaimAll(x: Extraction, call: ToolCall, observed: seq<Observed>): Extraction
  {
    if observed == [] then x
    else ClaimOne(ClaimAll(x, call, observed[..|observed| - 1]), call, observed[|observed| - 1])
  }

  function EmitOne(x: Extraction, call: ToolCall, o: Observed): Extraction
  {
    if o.key in x.seen then x
    else
      x.(seen := x.seen + {o.key},
         unpaired := if call.callId.None? then x.unpaired + [o] else x.unpaired,
         emitted := x.emitted + [o.operation])
  }

  function EmitAll(x: Extraction, call: ToolCall, observed: seq<Observed>): Extraction
  {
    if observed == [] then x
    else EmitOne(EmitAll(x, call, observed[..|observed| - 1]), call, observed[|observed| - 1])
  }

  /** Whether a result without an id repeats, later in the same log, what a call without an id announced. */
  predicate Repeats(announced: Observed, o: Observed)
  {
    && announced.operation.session == o.operation.session
    && CompatibleContext(announced.operation.turn, o.operation.turn)
    && announced.operation.kind == o.operation.kind
    && announced.key.path == o.key.path
    && SourcePrecedes(announced.operation.provenance, o.operation.provenance)
  }

  function FirstRepeated(unpaired: seq<Observed>, o: Observed): (found: Option<nat>)
    ensures found.Some? ==> found.value < |unpaired|
  {
    if unpaired == [] then None
    else if Repeats(unpaired[0], o) then Some(0)
    else
      match FirstRepeated(unpaired[1..], o)
      case Some(i) => Some(i + 1)
      case None => None
  }

  function AddOne(x: Extraction, r: ToolResult, o: Observed): Extraction
  {
    var repeated := FirstRepeated(x.unpaired, o);
    if r.callId.None? && repeated.Some? then
      x.(unpaired := x.unpaired[..repeated.value] + x.unpaired[repeated.value + 1..])
    else if o.key in x.seen then x
    else x.(seen := x.seen + {o.key}, emitted := x.emitted + [o.operation])
  }

  function AddAll(x: Extraction, r: ToolResult, observed: seq<Observed>): Extraction
  {
    if observed == [] then x
    else AddOne(AddAll(x, r, observed[..|observed| - 1]), r, observed[|observed| - 1])
  }

  function PriorPass(prior: seq<ToolCall>, n: nat, results: seq<ToolResult>, calls: seq<ToolCall>,
                     env: Reading): Extraction
    requires n <= |prior|
  {
    if n == 0 then Extraction({}, [], [], [])
    else
      var x, call := PriorPass(prior, n - 1, results, calls, env), prior[n - 1];
      if CallFails(results, calls, call, env) then x.(invalidated := x.invalidated + Plain(CallOperations(call)))
      else ClaimAll(x, call, CallOperations(call))
  }

  function CallPass(x: Extraction, current: seq<ToolCall>, n: nat, results: seq<ToolResult>, calls: seq<ToolCall>,
                    env: Reading): Extraction
    requires n <= |current|
  {
    if n == 0 then x
    else
      var y, call := CallPass(x, current, n - 1, results, calls, env), current[n - 1];
      if CallFails(results, calls, call, env) then y else EmitAll(y, call, CallOperations(call))
  }

  predicate ResultIsSkipped(r: ToolResult, results: seq<ToolResult>, calls: seq<ToolCall>, env: Reading)
  {
    || r.isDuplicate || ResultIsFailed(r, env)
    || (var m := MatchingCall(calls, r); m.Some? && CallIsFailed(results, calls, m.value, env))
  }

  function ResultPass(x: Extraction, n: nat, results: seq<ToolResult>, calls: seq<ToolCall>, env: Reading): Extraction
    requires n <= |results|
  {
    if n == 0 then x
    else
      var y, r := ResultPass(x, n - 1, results, calls, env), results[n - 1];
      if ResultIsSkipped(r, results, calls, env) then y
      else AddAll(y, r, ResultOperations(r, MatchingCall(calls, r), env))
  }

  /** `prior` are the pending calls of earlier polls; matching looks at them and at the current calls. */
  function Extract(prior: seq<ToolCall>, current: seq<ToolCall>, results: seq<ToolResult>, env: Reading): Extraction
  {
    var calls := prior + current;
    ResultPass(CallPass(PriorPass(prior, |prior|, results, calls, env), current, |current|, results, calls, env),
               |results|, results, calls, env)
  }

  // ---- The same extraction as the loops that grow the lists ----

  lemma PlainSnoc(observed: seq<Observed>, i: nat)
    requires i < |observed|
    ensures Plain(observed[..i + 1]) == Plain(observed[..i]) + [observed[i].operation]
  {
    assert observed[..i + 1][..i] == observed[..i];
  }

  method FindRepeated(unpaired: seq<Observed>, o: Observed) returns (found: Option<nat>)
    ensures found == FirstRepeated(unpaired, o)
  {
    hide Repeats;
    var i := 0;
    while i < |unpaired|
      invariant i <= |unpaired|
      invariant FirstRepeated(unpaired, o) ==
                match FirstRepeated(unpaired[i..], o) { case Some(k) => Some(i + k) case None => None }
    {
      assert unpaired[i..][1..] == unpaired[i + 1..];
      if Repeats(unpaired[i], o) {
        return Some(i);
      }
      i := i + 1;
    }
    return None;
  }

  method TakePriorCalls(prior: seq<ToolCall>, results: seq<ToolResult>, calls: seq<ToolCall>, env: Reading)
    returns (x: Extraction)
    ensures x == PriorPass(prior, |prior|, results, calls, env)
  {
    hide CallFails, CallOperations;
    x := Extraction({}, [], [], []);
    for n := 0 to |prior|
      invariant x == PriorPass(prior, n, results, calls, env)
    {
      var call := prior[n];
      var observed := CallOperations(call);
      ghost var before := x;
      if CallFails(results, calls, call, env) {
        for i := 0 to |observed|
          invariant x == before.(invalidated := before.invalidated + Plain(observed[..i]))
        {
          PlainSnoc(observed, i);
          x := x.(invalidated := x.invalidated + [observed[i].operation]);
        }
        TakeAll(observed, |observed|);
        continue;
      }
      for i := 0 to |observed|
        invariant x == ClaimAll(before, call, observed[..i])
      {
        assert observed[..i + 1][..i] == observed[..i];
        x := x.(seen := x.seen + {observed[i].key});
        if call.callId.None? {
          x := x.(unpaired := x.unpaired + [observed[i]]);
        }
      }
      TakeAll(observed, |observed|);
    }
  }

  method TakeCurrentCalls(start: Extraction, current: seq<ToolCall>, results: seq<ToolResult>, calls: seq<ToolCall>,
                          env: Reading)
    returns (x: Extraction)
    ensures x == CallPass(start, current, |current|, results, calls, env)
  {
    hide CallFails, CallOperations;
    x := start;
    for n := 0 to |current|
      invariant x == CallPass(start, current, n, results, calls, env)
    {
      var call := current[n];
      if CallFails(results, calls, call, env) {
        continue;
      }
      var observed := CallOperations(call);
      ghost var before := x;
      for i := 0 to |observed|
        invariant x == EmitAll(before, call, observed[..i])
      {
        assert observed[..i + 1][..i] == observed[..i];
        if observed[i].key !in x.seen {
          x := x.(seen := x.seen + {observed[i].key});
          if call.callId.None? {
            x := x.(unpaired := x.unpaired + [observed[i]]);
          }
          x := x.(emitted := x.emitted + [observed[i].operation]);
        }
      }
      TakeAll(observed, |observed|);
    }
  }

  method TakeResults(start: Extraction, results: seq<ToolResult>, calls: seq<ToolCall>, env: Reading)
    returns (x: Extraction)
    ensures x == ResultPass(start, |results|, results, calls, env)
  {
    hide ResultIsSkipped, ResultOperations, FirstRepeated, MatchingCall;
    x := start;
    for n := 0 to |results|
      invariant x == ResultPass(start, n, results, calls, env)
    {
      var r := results[n];
      if ResultIsSkipped(r, results, calls, env) {
        continue;
      }
      var observed := ResultOperations(r, MatchingCall(calls, r), env);
      ghost var before := x;
      for i := 0 to |observed|
        invariant x == AddAll(before, r, observed[..i])
      {
        assert observed[..i + 1][..i] == observed[..i];
        if r.callId.None? {
          var repeated := FindRepeated(x.unpaired, observed[i]);
          if repeated.Some? {
            x := x.(unpaired := x.unpaired[..repeated.value] + x.unpaired[repeated.value + 1..]);
            continue;
          }
        }
        if observed[i].key !in x.seen {
          x := x.(seen := x.seen + {observed[i].key}, emitted := x.emitted + [observed[i].operation]);
        }
      }
      TakeAll(observed, |observed|);
    }
  }

  method ExtractFileOperations(prior: seq<ToolCall>, current: seq<ToolCall>, results: seq<ToolResult>, env: Reading)
    returns (emitted: seq<Operation>, invalidated: seq<Operation>)
    ensures emitted == Extract(prior, current, results, env).emitted
    ensures invalidated == Extract(prior, current, results, env).invalidated
  {
    hide PriorPass, CallPass, ResultPass;
    var calls := prior + current;
    var x := TakePriorCalls(prior, results, calls, env);
    x := TakeCurrentCalls(x, current, results, calls, env);
    x := TakeResults(x, results, calls, env);
    emitted, invalidated := x.emitted, x.invalidated;
  }

  // ---- What is carried to the next poll ----

  predicate Answers(r: ToolResult, call: ToolCall)
  {
    r.callId == call.callId && ContextsCompatible(call, r)
  }

  function Unanswered(calls: seq<ToolCall>, results: seq<ToolResult>): seq<ToolCall>
  {
    if calls == [] then []
    else
      var last := calls[|calls| - 1];
      Unanswered(calls[..|calls| - 1], results) + if exists r :: r in results && Answers(r, last) then [] else [last]
  }

  function NextPendingToolCalls(prior: seq<ToolCall>, current: seq<ToolCall>, results: seq<ToolResult>): seq<ToolCall>
  {
    LastN(Unanswered(prior + current, results), MAX_PENDING_TOOL_CALLS)
  }

  function NextRecentToolResults(prior: seq<ToolResult>, current: seq<ToolResult>): seq<ToolResult>
  {
    LastN(prior + current, MAX_RECENT_TOOL_RESULTS)
  }

  /** The calls and results one poll reads. */
  datatype Batch = Batch(calls: seq<ToolCall>, results: seq<ToolResult>)

  /** What a source carries between polls, and the operations the store holds for it. */
  datatype Live = Live(pending: seq<ToolCall>, recent: seq<ToolResult>, stored: set<Operation>)

  function Marked(prior: seq<ToolResult>, results: seq<ToolResult>, env: Reading): seq<ToolResult>
  {
    MarkAll(prior, results, env.key).results
  }

  function AsSet(operations: seq<Operation>): set<Operation>
  {
    set o | o in operations
  }

  /** One poll marks its results, extracts, retracts what failed later, then inserts. */
  function Poll(live: Live, batch: Batch, env: Reading): Live
  {
    var results := Marked(live.recent, batch.results, env);
    var x := Extract(live.pending, batch.calls, results, env);
    Live(NextPendingToolCalls(live.pending, batch.calls, results),
         NextRecentToolResults(live.recent, results),
         live.stored - AsSet(x.invalidated) + AsSet(x.emitted))
  }

  function AllPolls(batches: seq<Batch>, env: Reading): Live
  {
    if batches == [] then Live([], [], {})
    else Poll(AllPolls(batches[..|batches| - 1], env), batches[|batches| - 1], env)
  }

  function Merged(batches: seq<Batch>): Batch
  {
    if batches == [] then Batch([], [])
    else
      var before, last := Merged(batches[..|batches| - 1]), batches[|batches| - 1];
      Batch(before.calls + last.calls, before.results + last.results)
  }

  /** Reading the whole log at once is one poll of everything. */
  function AtOnce(batches: seq<Batch>, env: Reading): set<Operation>
  {
    Poll(Live([], [], {}), Merged(batches), env).stored
  }
}
