/** What one poll hands over to the next: calls still without a result, and the latest results, src/normalize.rs. */
module PendingCalls {
  import opened Wrappers
  import opened Slices
  import opened Subsequences
  import opened Correlation
  import opened FileOperations

  /** Some result has the call's id, or lack of one, and does not contradict its session and turn. */
  ghost predicate IsAnswered(c: ToolCall, results: seq<ToolResult>)
  {
    exists r :: r in results && r.callId == c.callId
                && !Contradict(r.sessionId, c.sessionId) && !Contradict(r.turnId, c.turnId)
  }

  ghost predicate WaitsAt(calls: seq<ToolCall>, results: seq<ToolResult>, i: nat)
  {
    i < |calls| && !IsAnswered(calls[i], results)
  }

  /** The newest of the elements at these positions, no more than `most`, in order. */
  ghost predicate AreNewest<T(!new)>(kept: seq<T>, all: seq<T>, at: seq<nat>, most: nat)
  {
    && Ascending(at, |all|)
    && |kept| == (if |at| <= most then |at| else most)
    && forall i :: 0 <= i < |kept| ==>
         var k := i + |at| - |kept|;
         0 <= k < |at| && at[k] < |all| && kept[i] == all[at[k]]
  }

  lemma AnswersIs(calls: seq<ToolCall>, results: seq<ToolResult>, i: nat)
    requires i < |calls|
    ensures (exists r :: r in results && Answers(r, calls[i])) <==> !WaitsAt(calls, results, i)
  {
    forall r ensures Answers(r, calls[i]) <==>
        r.callId == calls[i].callId
        && !Contradict(r.sessionId, calls[i].sessionId) && !Contradict(r.turnId, calls[i].turnId) {
    }
    hide Answers, Contradict;
  }

  lemma {:induction false} UnansweredAre(calls: seq<ToolCall>, n: nat, results: seq<ToolResult>) returns (at: seq<nat>)
    requires n <= |calls|
    ensures AreAll(at, n, (i: nat) => WaitsAt(calls, results, i))
    ensures AreAt(Unanswered(calls[..n], results), at, (i: nat, c: ToolCall) => i < |calls| && calls[i] == c)
  {
    var waits, isAt := (i: nat) => WaitsAt(calls, results, i), (i: nat, c: ToolCall) => i < |calls| && calls[i] == c;
    hide AreAll, AreAt, Answers, WaitsAt;
    if n == 0 {
      at := [];
      NothingYet(waits, isAt);
    } else {
      at := UnansweredAre(calls, n - 1, results);
      var init, last := calls[..n - 1], calls[n - 1];
      assert calls[..n] == init + [last] && calls[..n][..n - 1] == init;
      AnswersIs(calls, results, n - 1);
      var more := if exists r :: r in results && Answers(r, last) then [] else [last];
      at := PartNext(Unanswered(init, results), more, at, n - 1, waits, isAt);
    }
  }

  lemma NothingYet(waits: nat -> bool, isAt: (nat, ToolCall) -> bool)
    ensures AreAll([], 0, waits) && AreAt([], [], isAt)
  {
  }

  /** Of the calls that no result answers, the newest 1024 wait on, in order. */
  lemma PendingAre(prior: seq<ToolCall>, current: seq<ToolCall>, results: seq<ToolResult>) returns (at: seq<nat>)
    ensures var calls := prior + current;
            && (forall i: nat :: i < |calls| ==> (i in at <==> !IsAnswered(calls[i], results)))
            && AreNewest(NextPendingToolCalls(prior, current, results), calls, at, 1024)
  {
    var calls := prior + current;
    at := UnansweredAre(calls, |calls|, results);
    assert calls[..|calls|] == calls;
    assert forall i: nat :: i < |calls| ==> (i in at <==> WaitsAt(calls, results, i));
    hide Unanswered, IsAnswered;
  }

  lemma LastOnesAre<T>(s: seq<T>, n: nat)
    ensures var kept := LastN(s, n);
            && |kept| == (if |s| <= n then |s| else n)
            && forall i :: 0 <= i < |kept| ==> kept[i] == s[i + |s| - |kept|]
  {
  }

  /** The newest 1024 results are kept, whatever they say. */
  lemma RecentAre(prior: seq<ToolResult>, current: seq<ToolResult>)
    ensures var all, kept := prior + current, NextRecentToolResults(prior, current);
            && |kept| == (if |all| <= 1024 then |all| else 1024)
            && forall i :: 0 <= i < |kept| ==> kept[i] == all[i + |all| - |kept|]
  {
    LastOnesAre(prior + current, 1024);
    hide LastN;
  }
}
