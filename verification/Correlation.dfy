/** Tool calls, tool results and how src/normalize.rs and src/analysis.rs find the call of a result. */
module Correlation {
  import opened Wrappers

  datatype Outcome = Succeeded | Failed | Unknown

  datatype OutcomeSource = FromExitCode | FromStatus | FromRenderer | FromOutputText | FromNowhere

  datatype Provenance = Provenance(path: string, line: nat)

  /** A path an operation touches: as written, as resolved against the working directory, and what happens to it. */
  datatype Target = Target(path: string, identity: string, operation: string)

  /** `status` is the call's own status text; `targets` is what its input names. */
  datatype ToolCall = ToolCall(
    callId: Option<string>, sessionId: Option<string>, turnId: Option<string>,
    status: Option<string>, targets: seq<Target>, provenance: Provenance)

  datatype ToolResult = ToolResult(
    callId: Option<string>, sessionId: Option<string>, turnId: Option<string>,
    command: Option<string>, cwd: Option<string>, stdout: Option<string>, stderr: Option<string>,
    durationMs: Option<int>, exitCode: Option<int>, status: Option<string>,
    outcome: Outcome, outcomeSource: OutcomeSource,
    deduplicationKey: Option<string>, equivalentTo: Option<Provenance>, isDuplicate: bool,
    provenance: Provenance)

  // ---- Contexts ----

  predicate SameContext(a: Option<string>, b: Option<string>)
  {
    a == b
  }

  /** An absent value is compatible with anything. */
  predicate CompatibleContext(a: Option<string>, b: Option<string>)
  {
    a.None? || b.None? || a == b
  }

  predicate IsCandidate(call: ToolCall, result: ToolResult)
  {
    && call.callId == result.callId && call.callId.Some?
    && CompatibleContext(call.sessionId, result.sessionId)
    && CompatibleContext(call.turnId, result.turnId)
  }

  predicate IsExact(call: ToolCall, result: ToolResult)
  {
    SameContext(call.sessionId, result.sessionId) && SameContext(call.turnId, result.turnId)
  }

  // ---- The list-filtering lookup of normalisation ----

  function Candidates(calls: seq<ToolCall>, result: ToolResult): seq<ToolCall>
  {
    if calls == [] then []
    else
      var last := calls[|calls| - 1];
      Candidates(calls[..|calls| - 1], result) + if IsCandidate(last, result) then [last] else []
  }

  function Exact(calls: seq<ToolCall>, result: ToolResult): seq<ToolCall>
  {
    if calls == [] then []
    else
      var last := calls[|calls| - 1];
      Exact(calls[..|calls| - 1], result) + if IsExact(last, result) then [last] else []
  }

  function MatchingCall(calls: seq<ToolCall>, result: ToolResult): Option<ToolCall>
  {
    var candidates := Candidates(calls, result);
    var exact := Exact(candidates, result);
    if exact != [] then Some(exact[0])
    else if |candidates| == 1 then Some(candidates[0])
    else None
  }

  // ---- What the lookup means, by positions ----

  /** Both are given and differ. */
  predicate Contradict(a: Option<string>, b: Option<string>)
  {
    a.Some? && b.Some? && a.value != b.value
  }

  /** Of the same id, in contexts that do not contradict each other. */
  predicate MayBelong(call: ToolCall, result: ToolResult)
  {
    && call.callId != None && call.callId == result.callId
    && !Contradict(call.sessionId, result.sessionId) && !Contradict(call.turnId, result.turnId)
  }

  /** Of the same id in the same context. */
  predicate BelongsExactly(call: ToolCall, result: ToolResult)
  {
    && call.callId != None && call.callId == result.callId && call.sessionId == result.sessionId
    && call.turnId == result.turnId
  }

  lemma CandidatesMayBelong(result: ToolResult)
    ensures forall call :: IsCandidate(call, result) <==> MayBelong(call, result)
    ensures forall call :: IsCandidate(call, result) && IsExact(call, result) <==> BelongsExactly(call, result)
  {
  }

  ghost predicate FirstExactAt(calls: seq<ToolCall>, result: ToolResult, i: nat)
  {
    i < |calls| && BelongsExactly(calls[i], result) && forall k :: 0 <= k < i ==> !BelongsExactly(calls[k], result)
  }

  ghost predicate OnlyCandidateAt(calls: seq<ToolCall>, result: ToolResult, i: nat)
  {
    && i < |calls| && MayBelong(calls[i], result)
    && forall k :: 0 <= k < |calls| && k != i ==> !MayBelong(calls[k], result)
  }

  ghost predicate NoExact(calls: seq<ToolCall>, result: ToolResult)
  {
    forall k :: 0 <= k < |calls| ==> !BelongsExactly(calls[k], result)
  }

  /** First exact match, otherwise the unique compatible call, otherwise none; nothing else is ever returned. */
  ghost predicate IsMatch(calls: seq<ToolCall>, result: ToolResult, found: Option<ToolCall>)
  {
    match found
    case Some(call) =>
      || (exists i: nat :: FirstExactAt(calls, result, i) && calls[i] == call)
      || (NoExact(calls, result) && exists i: nat :: OnlyCandidateAt(calls, result, i) && calls[i] == call)
    case None =>
      NoExact(calls, result) && !exists i: nat :: OnlyCandidateAt(calls, result, i)
  }

  lemma IsMatchUnique(calls: seq<ToolCall>, result: ToolResult, a: Option<ToolCall>, b: Option<ToolCall>)
    requires IsMatch(calls, result, a) && IsMatch(calls, result, b)
    ensures a == b
  {
    hide MayBelong, BelongsExactly;
  }

  /** The positions of the candidates, and among them of the exact ones. */
  lemma {:induction false} CandidatePositions(calls: seq<ToolCall>, result: ToolResult) returns (at: seq<nat>)
    ensures |at| == |Candidates(calls, result)|
    ensures forall i :: 0 <= i < |at| ==>
              at[i] < |calls| && calls[at[i]] == Candidates(calls, result)[i] && IsCandidate(calls[at[i]], result)
    ensures forall i, j :: 0 <= i < j < |at| ==> at[i] < at[j]
    ensures forall k :: 0 <= k < |calls| && IsCandidate(calls[k], result) ==> k in at
  {
    hide IsCandidate;
    at := [];
    if calls != [] {
      var n := |calls| - 1;
      at := CandidatePositions(calls[..n], result);
      if IsCandidate(calls[n], result) {
        at := at + [n];
      }
    }
  }

  lemma {:induction false} FirstOfExact(calls: seq<ToolCall>, result: ToolResult)
    ensures Exact(calls, result) == [] <==> forall i :: 0 <= i < |calls| ==> !IsExact(calls[i], result)
    ensures Exact(calls, result) != [] ==>
              exists i :: 0 <= i < |calls| && IsExact(calls[i], result) && calls[i] == Exact(calls, result)[0]
                          && forall k :: 0 <= k < i ==> !IsExact(calls[k], result)
  {
    hide IsExact;
    if calls != [] {
      var n := |calls| - 1;
      var init := calls[..n];
      FirstOfExact(init, result);
      if Exact(init, result) != [] {
        var i :| 0 <= i < n && IsExact(init[i], result) && init[i] == Exact(init, result)[0]
                 && forall k :: 0 <= k < i ==> !IsExact(init[k], result);
        assert calls[i] == init[i] && forall k :: 0 <= k < i ==> calls[k] == init[k];
        assert IsExact(calls[i], result) && calls[i] == Exact(calls, result)[0];
      } else {
        assert forall k :: 0 <= k < n ==> calls[k] == init[k];
      }
    }
  }

  lemma MatchingCallIs(calls: seq<ToolCall>, result: ToolResult)
    ensures IsMatch(calls, result, MatchingCall(calls, result))
  {
    hide IsCandidate, IsExact, Candidates, Exact, MayBelong, BelongsExactly;
    var at := CandidatePositions(calls, result);
    var candidates := Candidates(calls, result);
    FirstOfExact(candidates, result);
    if Exact(candidates, result) != [] {
      var i :| 0 <= i < |candidates| && IsExact(candidates[i], result) && candidates[i] == Exact(candidates, result)[0]
               && forall k :: 0 <= k < i ==> !IsExact(candidates[k], result);
      FirstExactPosition(calls, result, at, i);
    } else {
      NoExactPosition(calls, result, at);
      if |candidates| == 1 {
        OnlyPosition(calls, result, at);
      } else {
        NotOnlyPosition(calls, result, at);
      }
    }
  }

  ghost predicate ArePositions(calls: seq<ToolCall>, result: ToolResult, at: seq<nat>)
  {
    && (forall i :: 0 <= i < |at| ==> at[i] < |calls| && IsCandidate(calls[at[i]], result))
    && (forall i, j :: 0 <= i < j < |at| ==> at[i] < at[j])
    && (forall k :: 0 <= k < |calls| && IsCandidate(calls[k], result) ==> k in at)
  }

  lemma Increasing(at: seq<nat>, i: nat, j: nat)
    requires forall i, j :: 0 <= i < j < |at| ==> at[i] < at[j]
    requires i < |at| && j < |at| && at[j] < at[i]
    ensures j < i
  {
  }

  lemma FirstExactPosition(calls: seq<ToolCall>, result: ToolResult, at: seq<nat>, i: nat)
    requires ArePositions(calls, result, at) && i < |at| && IsExact(calls[at[i]], result)
    requires forall k :: 0 <= k < i ==> !IsExact(calls[at[k]], result)
    ensures FirstExactAt(calls, result, at[i])
  {
    CandidatesMayBelong(result);
    hide IsCandidate, IsExact, MayBelong, BelongsExactly;
    forall k | 0 <= k < at[i] && IsCandidate(calls[k], result) ensures !IsExact(calls[k], result) {
      var j :| 0 <= j < |at| && at[j] == k;
      assert j < i by { Increasing(at, i, j); }
    }
  }

  lemma NoExactPosition(calls: seq<ToolCall>, result: ToolResult, at: seq<nat>)
    requires ArePositions(calls, result, at)
    requires forall i :: 0 <= i < |at| ==> !IsExact(calls[at[i]], result)
    ensures NoExact(calls, result)
  {
    CandidatesMayBelong(result);
    hide IsCandidate, IsExact, MayBelong, BelongsExactly;
  }

  lemma OnlyPosition(calls: seq<ToolCall>, result: ToolResult, at: seq<nat>)
    requires ArePositions(calls, result, at) && |at| == 1
    ensures OnlyCandidateAt(calls, result, at[0])
  {
    CandidatesMayBelong(result);
    hide IsCandidate, IsExact, MayBelong, BelongsExactly;
  }

  lemma NotOnlyPosition(calls: seq<ToolCall>, result: ToolResult, at: seq<nat>)
    requires ArePositions(calls, result, at) && |at| != 1
    ensures !exists i: nat :: OnlyCandidateAt(calls, result, i)
  {
    CandidatesMayBelong(result);
    hide IsCandidate, IsExact, MayBelong, BelongsExactly;
    assert |at| >= 2 ==> at[0] < at[1];
    forall i: nat ensures !OnlyCandidateAt(calls, result, i) {
      assert i in at ==> |at| >= 2;
    }
  }

  // ---- The indexed lookup of the analysis context ----

  /** All calls of one id, in order. */
  function WithId(calls: seq<ToolCall>, id: string): seq<ToolCall>
  {
    if calls == [] then []
    else
      var last := calls[|calls| - 1];
      WithId(calls[..|calls| - 1], id) + if last.callId == Some(id) then [last] else []
  }

  ghost predicate IsIndex(index: map<string, seq<ToolCall>>, calls: seq<ToolCall>)
  {
    && (forall id :: id in index ==> index[id] == WithId(calls, id))
    && (forall id {:trigger WithId(calls, id)} :: id !in index ==> WithId(calls, id) == [])
  }

  lemma WithIdSnoc(calls: seq<ToolCall>, i: nat)
    requires i < |calls|
    ensures forall id :: WithId(calls[..i + 1], id) ==
              WithId(calls[..i], id) + if calls[i].callId == Some(id) then [calls[i]] else []
  {
    assert calls[..i + 1][..i] == calls[..i];
  }

  lemma IndexStep(before: map<string, seq<ToolCall>>, after: map<string, seq<ToolCall>>, calls: seq<ToolCall>, i: nat)
    requires i < |calls| && IsIndex(before, calls[..i])
    requires calls[i].callId.None? ==> after == before
    requires calls[i].callId.Some? ==>
               var id := calls[i].callId.value;
               after == before[id := (if id in before then before[id] else []) + [calls[i]]]
    ensures IsIndex(after, calls[..i + 1])
  {
    hide WithId;
    forall id ensures if id in after then after[id] == WithId(calls[..i + 1], id)
        else WithId(calls[..i + 1], id) == [] {
      WithIdSnoc(calls, i);
      assert WithId(calls[..i], id) == if id in before then before[id] else [];
    }
  }

  method BuildIndex(calls: seq<ToolCall>) returns (index: map<string, seq<ToolCall>>)
    ensures IsIndex(index, calls)
  {
    hide WithId;
    index := map[];
    assert IsIndex(index, calls[..0]) by { NoCalls(calls); }
    for i := 0 to |calls|
      invariant IsIndex(index, calls[..i])
    {
      ghost var before := index;
      if calls[i].callId.Some? {
        var id := calls[i].callId.value;
        index := index[id := (if id in index then index[id] else []) + [calls[i]]];
      }
      IndexStep(before, index, calls, i);
    }
    assert calls[..|calls|] == calls;
  }

  lemma NoCalls(calls: seq<ToolCall>)
    ensures forall id :: WithId(calls[..0], id) == []
  {
  }

  lemma CandidatesAfter(calls: seq<ToolCall>, call: ToolCall, result: ToolResult)
    ensures Candidates(calls + [call], result) ==
            Candidates(calls, result) + if IsCandidate(call, result) then [call] else []
  {
    assert (calls + [call])[..|calls|] == calls;
  }

  /** Filtering by id first and by context afterwards finds the same candidates. */
  lemma {:induction false} CandidatesWithId(calls: seq<ToolCall>, result: ToolResult)
    requires result.callId.Some?
    ensures Candidates(WithId(calls, result.callId.value), result) == Candidates(calls, result)
  {
    if calls != [] {
      var init, last := calls[..|calls| - 1], calls[|calls| - 1];
      var id := result.callId.value;
      CandidatesWithId(init, result);
      hide CompatibleContext;
      CandidatesAfter(WithId(init, id), last, result);
      assert WithId(init, id) + [] == WithId(init, id) && Candidates(init, result) + [] == Candidates(init, result);
    }
  }

  lemma CandidatesSnoc(calls: seq<ToolCall>, i: nat, result: ToolResult)
    requires i < |calls|
    ensures Candidates(calls[..i + 1], result) ==
            Candidates(calls[..i], result) + if IsCandidate(calls[i], result) then [calls[i]] else []
  {
    assert calls[..i + 1][..i] == calls[..i];
  }

  /** One more call adds one exact candidate or none. */
  lemma ExactSnoc(calls: seq<ToolCall>, i: nat, result: ToolResult)
    requires i < |calls|
    ensures Exact(Candidates(calls[..i + 1], result), result) ==
            Exact(Candidates(calls[..i], result), result)
            + if IsCandidate(calls[i], result) && IsExact(calls[i], result) then [calls[i]] else []
  {
    hide IsCandidate, IsExact;
    CandidatesSnoc(calls, i, result);
    var seen := Candidates(calls[..i], result);
    assert (seen + [calls[i]])[..|seen|] == seen && seen + [] == seen;
    assert Exact(seen, result) + [] == Exact(seen, result);
  }

  /** Later candidates do not change which exact match comes first. */
  lemma {:induction false} FirstExactStays(calls: seq<ToolCall>, i: nat, result: ToolResult)
    requires i <= |calls| && Exact(Candidates(calls[..i], result), result) != []
    ensures var exact := Exact(Candidates(calls, result), result);
            exact != [] && exact[0] == Exact(Candidates(calls[..i], result), result)[0]
    decreases |calls| - i
  {
    hide Candidates, Exact, IsCandidate, IsExact;
    if i < |calls| {
      ExactSnoc(calls, i, result);
      FirstExactStays(calls, i + 1, result);
    } else {
      assert calls[..i] == calls;
    }
  }

  /** The single pass over the indexed calls returns what the list-filtering lookup returns. */
  method MatchingCallIndexed(index: map<string, seq<ToolCall>>, ghost calls: seq<ToolCall>, result: ToolResult)
    returns (found: Option<ToolCall>)
    requires IsIndex(index, calls)
    ensures found == MatchingCall(calls, result)
  {
    hide Candidates, Exact, WithId;
    if result.callId.None? {
      NoCandidates(calls, result);
      return None;
    }
    CandidatesWithId(calls, result);
    if result.callId.value !in index {
      NothingToScan(result);
      return None;
    }
    var candidates := index[result.callId.value];
    var compatibleCount := 0;
    var soleCompatible := None;
    NothingToScan(result);
    for i := 0 to |candidates|
      invariant var seen := Candidates(candidates[..i], result);
                && compatibleCount == |seen|
                && (seen != [] ==> soleCompatible == Some(seen[|seen| - 1]))
                && Exact(seen, result) == []
    {
      var call := candidates[i];
      CandidatesSnoc(candidates, i, result);
      ExactSnoc(candidates, i, result);
      SameIdInGroup(calls, result.callId.value, i);
      if CompatibleContext(call.sessionId, result.sessionId) && CompatibleContext(call.turnId, result.turnId) {
        compatibleCount := compatibleCount + 1;
        soleCompatible := Some(call);
        if IsExact(call, result) {
          FirstExactStays(candidates, i + 1, result);
          return Some(call);
        }
      }
    }
    assert candidates[..|candidates|] == candidates;
    found := if compatibleCount == 1 then soleCompatible else None;
  }

  lemma NothingToScan(result: ToolResult)
    ensures Candidates([], result) == [] && Exact([], result) == []
  {
  }

  lemma {:induction false} NoCandidates(calls: seq<ToolCall>, result: ToolResult)
    requires result.callId.None?
    ensures Candidates(calls, result) == [] && Exact([], result) == []
  {
    if calls != [] {
      NoCandidates(calls[..|calls| - 1], result);
    }
  }

  lemma {:induction false} SameIdInGroup(calls: seq<ToolCall>, id: string, i: nat)
    requires i < |WithId(calls, id)|
    ensures WithId(calls, id)[i].callId == Some(id)
  {
    var init := calls[..|calls| - 1];
    if i < |WithId(init, id)| {
      SameIdInGroup(init, id, i);
    }
  }
}
