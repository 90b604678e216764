/** The sessions of file operations are those of the calls and results they stem from, src/normalize.rs. */
module SessionOperations {
  import opened Wrappers
  import S = Sessions
  import R = SessionReferences
  import C = Correlation
  import F = FileOperations
  import FS = FileOperationSets
  import P = SessionPolls
  import K = FileOperationRekeys
  import L = Slices

  /** The calls and results of a run, attributed as its rows say. */
  ghost predicate Attributed(data: S.Data, calls: seq<C.ToolCall>, results: seq<C.ToolResult>)
  {
    && |calls| == |data.calls| && (forall i :: 0 <= i < |calls| ==> calls[i].sessionId == data.calls[i].session)
    && |results| == |data.results|
    && (forall i :: 0 <= i < |results| ==> results[i].sessionId == data.results[i].session)
  }

  lemma RowsAreNamed(data: S.Data, calls: seq<C.ToolCall>, results: seq<C.ToolResult>, session: string)
    requires Attributed(data, calls, results)
    requires (exists i :: 0 <= i < |calls| && calls[i].sessionId == Some(session))
             || (exists i :: 0 <= i < |results| && results[i].sessionId == Some(session))
    ensures session in R.Named(data)
  {
    hide R.NamedInTurns, R.UsageRows;
    if i :| 0 <= i < |calls| && calls[i].sessionId == Some(session) {
      assert data.calls[i].session.value in R.NamedIn(data.calls);
    } else {
      var i :| 0 <= i < |results| && results[i].sessionId == Some(session);
      assert data.results[i].session.value in R.NamedIn(data.results);
    }
  }

  /** Every file operation a run emits, whatever was pending before, carries a session of the run's final map. */
  lemma OperationSessionsAreKnown(
      path: Option<string>, records: seq<S.Record>, context: S.Context, base: nat, around: S.Surroundings,
      pending: seq<C.ToolCall>, calls: seq<C.ToolCall>, results: seq<C.ToolResult>, env: F.Reading, op: F.Operation)
    requires R.ContextFits(path, context, around) && forall i :: 0 <= i < |records| ==> R.FromLog(records[i])
    requires Attributed(S.Run(path, records, context, base, around).data, calls, results)
    ensures var p := S.Run(path, records, context, base, around);
            op in F.Extract(pending, calls, results, env).emitted ==>
                op.session in p.sessions && p.sessions[op.session].id == op.session
  {
    hide S.Run, R.ContextFits, R.FromLog, R.Named, F.Extract, Attributed;
    if op in F.Extract(pending, calls, results, env).emitted {
      FS.EmittedStemFromRows(pending, calls, results, env, op);
      RowsAreNamed(S.Run(path, records, context, base, around).data, calls, results, op.session);
      R.EveryNamedSessionIsKnown(path, records, context, base, around);
    }
  }

  // ---- Polls ----

  function PollData(polls: seq<seq<S.Record>>, j: nat, path: string, around: S.Surroundings): S.Data
    requires j < |polls|
  {
    P.PollFirst(P.AllPolled(polls[..j], path, around), polls[j], |polls[j]|, path, around).data
  }

  /** The calls and results of every poll, attributed as that poll's run says. */
  ghost predicate AttributedPolls(polls: seq<seq<S.Record>>, batches: seq<F.Batch>, path: string,
                                  around: S.Surroundings)
  {
    && |batches| == |polls|
    && forall j :: 0 <= j < |polls| ==>
         Attributed(PollData(polls, j, path, around), batches[j].calls, batches[j].results)
  }

  function TargetAt(polls: seq<seq<S.Record>>, j: nat, path: string, around: S.Surroundings): Option<string>
    requires j < |polls|
  {
    var s := P.AllPolled(polls[..j], path, around);
    P.RekeyTarget(s, P.PollFirst(s, polls[j], |polls[j]|, path, around).sessions)
  }

  /** The store renames its rows at poll `k.at`, from the session carried to it, and at no other. */
  ghost predicate RekeysAt(polls: seq<seq<S.Record>>, k: K.Rekey, path: string, around: S.Surroundings)
  {
    && k.at < |polls| && P.CarriedName(P.AllPolled(polls[..k.at], path, around)) == Some(k.from)
    && forall j: nat :: j < |polls| ==> TargetAt(polls, j, path, around) == if j == k.at then Some(k.to) else None
  }

  lemma {:induction false} RolloutStays(polls: seq<seq<S.Record>>, i: nat, j: nat, path: string, around: S.Surroundings)
    requires P.AllFromLog(L.Concat(polls)) && i < j <= |polls| && TargetAt(polls, i, path, around).Some?
    ensures P.CarriesRollout(P.AllPolled(polls[..j], path, around))
    decreases j
  {
    hide P.InStep, P.NextPoll, P.PollFirst, P.CarriesRollout, P.RekeyTarget, P.Whole, P.AllFromLog;
    var before := polls[..j - 1];
    assert polls[..j][..j - 1] == before && before + polls[j - 1..] == polls;
    FromLogParts(before, polls[j - 1..], polls[j - 1]);
    P.PollsStayInStep(before, path, around);
    P.RenamingEndsTheFallback(P.AllPolled(before, path, around), P.Whole(L.Concat(before), path, around), polls[j - 1],
                              path, around);
    if i < j - 1 {
      RolloutStays(polls, i, j - 1, path, around);
    }
  }

  lemma FromLogParts(a: seq<seq<S.Record>>, b: seq<seq<S.Record>>, first: seq<S.Record>)
    requires b != [] && b[0] == first && P.AllFromLog(L.Concat(a + b))
    ensures P.AllFromLog(L.Concat(a)) && P.AllFromLog(first)
  {
    hide P.AllFromLog, L.Concat;
    L.ConcatAppend(a, b);
    assert b == [first] + b[1..];
    L.ConcatAppend([first], b[1..]);
    ConcatOne(first);
    PrefixesFromLog(L.Concat(a), first, L.Concat(b[1..]));
  }

  lemma ConcatOne<T>(first: seq<T>)
    ensures L.Concat([first]) == first
  {
    assert [first][..0] == [] && [] + first == first;
  }

  lemma PrefixesFromLog(a: seq<S.Record>, b: seq<S.Record>, rest: seq<S.Record>)
    requires P.AllFromLog(a + (b + rest))
    ensures P.AllFromLog(a) && P.AllFromLog(b)
  {
    hide R.FromLog;
    var all := a + (b + rest);
    assert forall i :: 0 <= i < |a| ==> all[i] == a[i];
    assert forall i :: 0 <= i < |b| ==> all[|a| + i] == b[i];
  }

  /** The store renames the rows of a log at most once. */
  lemma RenamesOnce(polls: seq<seq<S.Record>>, i: nat, j: nat, path: string, around: S.Surroundings)
    requires P.AllFromLog(L.Concat(polls)) && i < j < |polls| && TargetAt(polls, i, path, around).Some?
    ensures TargetAt(polls, j, path, around).None?
  {
    hide P.InStep, P.NextPoll, P.PollFirst, P.Whole, P.AllFromLog, P.AllPolled;
    RolloutStays(polls, i, j, path, around);
  }

  // ---- One run's attribution ----

  lemma AttributedAppended(a: S.Data, b: S.Data, first: F.Batch, second: F.Batch)
    requires Attributed(a, first.calls, first.results) && Attributed(b, second.calls, second.results)
    ensures Attributed(P.Appended(a, b), first.calls + second.calls, first.results + second.results)
  {
  }

  lemma AttributedRenamed(data: S.Data, rows: F.Batch, k: K.Rekey)
    requires Attributed(data, rows.calls, rows.results)
    ensures Attributed(S.RenamedData(data, k.from, k.to), K.RenamedCalls(rows.calls, k),
        K.RenamedResults(rows.results, k))
  {
  }

  /** The rows of the first n polls under the sessions the store has for them by then. */
  function FinalUpTo(batches: seq<F.Batch>, k: K.Rekey, n: nat): seq<F.Batch>
    requires n <= |batches|
  {
    if n <= k.at then batches[..n] else K.Final(batches[..k.at], batches[k.at..n], k)
  }

  lemma MergedNext(batches: seq<F.Batch>, k: K.Rekey, n: nat)
    requires n < |batches|
    ensures var was, last := F.Merged(FinalUpTo(batches, k, n)), batches[n];
            F.Merged(FinalUpTo(batches, k, n + 1)) ==
            if n == k.at then
                F.Batch(K.RenamedCalls(was.calls, k) + last.calls, K.RenamedResults(was.results, k) + last.results)
            else F.Batch(was.calls + last.calls, was.results + last.results)
  {
    hide F.Merged;
    var last := batches[n];
    One(last);
    if n < k.at {
      assert batches[..n + 1] == batches[..n] + [last];
      K.MergedConcat(batches[..n], [last]);
    } else if n == k.at {
      assert batches[k.at..n + 1] == [last];
      K.MergedConcat(K.RenamedBatches(batches[..k.at], k), [last]);
      K.MergedRenamed(batches[..k.at], k);
    } else {
      var was := K.Final(batches[..k.at], batches[k.at..n], k);
      assert K.Final(batches[..k.at], batches[k.at..n + 1], k) == was + [last];
      K.MergedConcat(was, [last]);
    }
  }

  lemma One(batch: F.Batch)
    ensures F.Merged([batch]) == batch
  {
    assert [batch][..0] == [];
    assert [] + batch.calls == batch.calls && [] + batch.results == batch.results;
  }

  lemma NextRows(s: P.Polled, records: seq<S.Record>, path: string, around: S.Surroundings)
    ensures var q, next := P.PollFirst(s, records, |records|, path, around), P.NextPoll(s, records, path, around);
            var was := P.Rekeyed(s, q.sessions);
            && next.stored.calls == was.calls + q.data.calls && next.stored.results == was.results + q.data.results
            && (P.RekeyTarget(s, q.sessions).None? ==> was == s.stored)
            && (P.RekeyTarget(s, q.sessions).Some? ==>
                  P.PollContext(s).session.Some?
                  && was == S.RenamedData(s.stored, P.PollContext(s).session.value.id,
                                          P.RekeyTarget(s, q.sessions).value))
  {
    hide S.RunFirst, S.Start, S.Deduplicated, S.Find, S.RenamedData, P.RekeyTarget;
    P.TargetIsOther(s, P.PollFirst(s, records, |records|, path, around).sessions);
  }

  lemma AttributedLike(a: S.Data, b: S.Data, rows: F.Batch)
    requires Attributed(a, rows.calls, rows.results) && a.calls == b.calls && a.results == b.results
    ensures Attributed(b, rows.calls, rows.results)
  {
  }

  ghost predicate AttributedUpTo(polls: seq<seq<S.Record>>, batches: seq<F.Batch>, k: K.Rekey, n: nat, path: string,
                                 around: S.Surroundings)
    requires n <= |polls| && n <= |batches|
  {
    var rows := F.Merged(FinalUpTo(batches, k, n));
    Attributed(P.AllPolled(polls[..n], path, around).stored, rows.calls, rows.results)
  }

  lemma NothingAttributed(polls: seq<seq<S.Record>>, batches: seq<F.Batch>, k: K.Rekey, path: string,
                          around: S.Surroundings)
    ensures AttributedUpTo(polls, batches, k, 0, path, around)
  {
    assert polls[..0] == [] && FinalUpTo(batches, k, 0) == [];
  }

  lemma AllPolledNext(polls: seq<seq<S.Record>>, n: nat, path: string, around: S.Surroundings)
    requires n < |polls|
    ensures P.AllPolled(polls[..n + 1], path, around) ==
            P.NextPoll(P.AllPolled(polls[..n], path, around), polls[n], path, around)
  {
    hide P.NextPoll;
    assert polls[..n + 1][..n] == polls[..n] && polls[..n + 1][n] == polls[n];
  }

  /** What the store holds after n polls: rows attributed as the log compared with one run attributes them. */
  lemma {:induction false} StoredAttributed(polls: seq<seq<S.Record>>, batches: seq<F.Batch>, k: K.Rekey, n: nat,
                                            path: string, around: S.Surroundings)
    requires AttributedPolls(polls, batches, path, around) && RekeysAt(polls, k, path, around)
    requires n <= |polls| == |batches|
    ensures AttributedUpTo(polls, batches, k, n, path, around)
  {
    hide *;
    if n == 0 {
      NothingAttributed(polls, batches, k, path, around);
    } else {
      StoredAttributed(polls, batches, k, n - 1, path, around);
      AllPolledNext(polls, n - 1, path, around);
      OneMoreAttributed(polls, batches, k, n - 1, path, around);
    }
  }

  lemma OneMoreAttributed(polls: seq<seq<S.Record>>, batches: seq<F.Batch>, k: K.Rekey, j: nat, path: string,
                          around: S.Surroundings)
    requires AttributedPolls(polls, batches, path, around) && RekeysAt(polls, k, path, around)
    requires j < |polls| == |batches| && AttributedUpTo(polls, batches, k, j, path, around)
    ensures AttributedUpTo(polls, batches, k, j + 1, path, around)
  {
    assert Attributed(PollData(polls, j, path, around), batches[j].calls, batches[j].results);
    assert TargetAt(polls, j, path, around) == if j == k.at then Some(k.to) else None;
    assert j == k.at ==> P.CarriedName(P.AllPolled(polls[..j], path, around)) == Some(k.from);
    hide F.Merged, P.NextPoll, P.PollFirst, P.RekeyTarget, Attributed, FinalUpTo, P.AllPolled, AttributedPolls,
         RekeysAt;
    AllPolledNext(polls, j, path, around);
    MergedNext(batches, k, j);
    NextAttributed(P.AllPolled(polls[..j], path, around), polls[j], F.Merged(FinalUpTo(batches, k, j)), batches[j], k,
                   j == k.at, path, around);
  }

  lemma NextAttributed(s: P.Polled, records: seq<S.Record>, rows: F.Batch, next: F.Batch, k: K.Rekey, renames: bool,
                       path: string, around: S.Surroundings)
    requires Attributed(s.stored, rows.calls, rows.results)
    requires var q := P.PollFirst(s, records, |records|, path, around);
             && Attributed(q.data, next.calls, next.results)
             && P.RekeyTarget(s, q.sessions) == (if renames then Some(k.to) else None)
             && (renames ==> P.CarriedName(s) == Some(k.from))
    ensures var was := if renames then F.Batch(K.RenamedCalls(rows.calls, k), K.RenamedResults(rows.results, k))
        else rows;
            Attributed(P.NextPoll(s, records, path, around).stored, was.calls + next.calls, was.results + next.results)
  {
    hide P.NextPoll, P.PollFirst, P.RekeyTarget, Attributed, S.RenamedData, K.RenamedCalls, K.RenamedResults, P.Rekeyed;
    var q := P.PollFirst(s, records, |records|, path, around);
    NextRows(s, records, path, around);
    var data := P.Rekeyed(s, q.sessions);
    var was := if renames then F.Batch(K.RenamedCalls(rows.calls, k), K.RenamedResults(rows.results, k)) else rows;
    if renames {
      AttributedRenamed(s.stored, rows, k);
    }
    AttributedAppended(data, q.data, was, next);
    AttributedLike(P.Appended(data, q.data), P.NextPoll(s, records, path, around).stored,
                   F.Batch(was.calls + next.calls, was.results + next.results));
  }

  lemma RowsOfFallback(s: P.Polled, p: S.Progress, sessions: map<string, S.Session>, before: seq<S.Record>,
                       rows: F.Batch, path: string, around: S.Surroundings)
    requires P.InStep(s, p, path, around) && P.RekeyTarget(s, sessions).Some? && P.Follows(s.stored, before)
    requires Attributed(s.stored, rows.calls, rows.results)
    ensures forall c :: c in rows.calls ==> c.sessionId == P.CarriedName(s)
    ensures forall r :: r in rows.results ==> r.sessionId == P.CarriedName(s)
  {
    assert P.AllName(s.stored.records, P.CarriedName(s));
    hide P.InStep, P.RekeyTarget, P.Pick, P.CarriedName;
    P.PickMembers(s.stored.records, before, R.Calls);
    P.PickMembers(s.stored.records, before, R.Results);
    forall c | c in rows.calls ensures c.sessionId == P.CarriedName(s) {
      var i :| 0 <= i < |rows.calls| && rows.calls[i] == c;
      assert s.stored.calls[i] in s.stored.calls;
    }
    forall r | r in rows.results ensures r.sessionId == P.CarriedName(s) {
      var i :| 0 <= i < |rows.results| && rows.results[i] == r;
      assert s.stored.results[i] in s.stored.results;
    }
  }

  lemma EarlyAreOfFallback(polls: seq<seq<S.Record>>, batches: seq<F.Batch>, k: K.Rekey, path: string,
                           around: S.Surroundings)
    requires P.AllFromLog(L.Concat(polls)) && AttributedPolls(polls, batches, path, around)
    requires RekeysAt(polls, k, path, around) && k.at < |batches| == |polls|
    ensures K.AllUnder(batches[..k.at], k.from)
  {
    hide *;
    StoredAttributed(polls, batches, k, k.at, path, around);
    AtReplacement(polls, batches, k, path, around);
    assert polls[..k.at] + polls[k.at..] == polls;
    FromLogParts(polls[..k.at], polls[k.at..], polls[k.at]);
    FallbackBefore(polls[..k.at], polls[k.at], batches[..k.at], k.from, path, around);
  }

  lemma AtReplacement(polls: seq<seq<S.Record>>, batches: seq<F.Batch>, k: K.Rekey, path: string,
                      around: S.Surroundings)
    requires RekeysAt(polls, k, path, around) && k.at < |batches| == |polls|
    ensures var s := P.AllPolled(polls[..k.at], path, around);
            && P.RekeyTarget(s, P.PollFirst(s, polls[k.at], |polls[k.at]|, path, around).sessions).Some?
            && P.CarriedName(s) == Some(k.from)
    ensures AttributedUpTo(polls, batches, k, k.at, path, around) ==>
              Attributed(P.AllPolled(polls[..k.at], path, around).stored, F.Merged(batches[..k.at]).calls,
                         F.Merged(batches[..k.at]).results)
  {
    hide P.AllPolled, P.RekeyTarget, P.PollFirst, P.CarriedName, F.Merged, Attributed;
    assert TargetAt(polls, k.at, path, around) == Some(k.to);
  }

  lemma FallbackBefore(before: seq<seq<S.Record>>, records: seq<S.Record>, batches: seq<F.Batch>, from: string,
                       path: string, around: S.Surroundings)
    requires P.AllFromLog(L.Concat(before))
    requires var s, rows := P.AllPolled(before, path, around), F.Merged(batches);
             && P.RekeyTarget(s, P.PollFirst(s, records, |records|, path, around).sessions).Some?
             && P.CarriedName(s) == Some(from) && Attributed(s.stored, rows.calls, rows.results)
    ensures K.AllUnder(batches, from)
  {
    hide F.Merged, P.PollFirst, P.RekeyTarget, Attributed, P.AllPolled, P.AllFromLog, P.Follows, P.InStep, P.Whole,
         P.CarriedName;
    var s := P.AllPolled(before, path, around);
    P.PollsStayInStep(before, path, around);
    P.StoredFollows(before, path, around);
    RowsOfFallback(s, P.Whole(L.Concat(before), path, around),
                   P.PollFirst(s, records, |records|, path, around).sessions, L.Concat(before), F.Merged(batches), path,
                   around);
  }

  /**
   * When polls attribute a log as one run does and its state session is replaced at poll `k.at`, the log compared with
   * one run is the polls' own with the earlier rows renamed: that is how one run attributes it, and the rows renamed
   * are all of the session replaced.
   */
  lemma FinalIsOneRuns(polls: seq<seq<S.Record>>, batches: seq<F.Batch>, k: K.Rekey, path: string,
                       around: S.Surroundings)
    requires P.AllFromLog(L.Concat(polls)) && P.PollsAgree(polls, path, around)
    requires AttributedPolls(polls, batches, path, around) && RekeysAt(polls, k, path, around)
    requires k.at < |batches| == |polls|
    ensures var all := F.Merged(K.Final(batches[..k.at], batches[k.at..], k));
            Attributed(P.Batch(L.Concat(polls), path, around).data, all.calls, all.results)
    ensures K.AllUnder(batches[..k.at], k.from)
  {
    hide *;
    EarlyAreOfFallback(polls, batches, k, path, around);
    StoredAttributed(polls, batches, k, |polls|, path, around);
    P.PollsAttributeAlikeIff(polls, path, around);
    AttributedByOneRun(polls, batches, k, path, around);
  }

  lemma AttributedByOneRun(polls: seq<seq<S.Record>>, batches: seq<F.Batch>, k: K.Rekey, path: string,
                           around: S.Surroundings)
    requires k.at < |batches| == |polls| && AttributedUpTo(polls, batches, k, |polls|, path, around)
    requires P.SameRows(P.AllPolled(polls, path, around).stored, P.Batch(L.Concat(polls), path, around).data)
    ensures var all := F.Merged(K.Final(batches[..k.at], batches[k.at..], k));
            Attributed(P.Batch(L.Concat(polls), path, around).data, all.calls, all.results)
  {
    hide P.AllPolled, P.Batch, F.Merged, Attributed;
    assert polls[..|polls|] == polls && batches[k.at..|polls|] == batches[k.at..];
    AttributedLike(P.AllPolled(polls, path, around).stored, P.Batch(L.Concat(polls), path, around).data,
                   F.Merged(K.Final(batches[..k.at], batches[k.at..], k)));
  }
}
