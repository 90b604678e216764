/** Which usage rows survive deduplication, in one run and across polls, src/normalize.rs. */
module UsageRows {
  import opened Wrappers
  import opened Slices
  import opened Sessions
  import S = SessionReferences

  // ---- One list ----

  /** Two counts of one turn, or of one session outside its turns, are the same. */
  ghost predicate SameUse(u: Usage, v: Usage)
  {
    && !(u.row.session == None && u.row.turn == None)
    && u.row.session == v.row.session && u.row.turn == v.row.turn && u.counters == v.counters
  }

  lemma SameUseIs(u: Usage, v: Usage)
    ensures SameUse(u, v) <==> HasOwner(u) && HasOwner(v) && KeyOf(u) == KeyOf(v)
  {
  }

  /** The row names neither session nor turn, or no earlier row has its session, turn and counters. */
  ghost predicate Remains(usage: seq<Usage>, k: int)
  {
    0 <= k < |usage| && forall j :: 0 <= j < k ==> !SameUse(usage[j], usage[k])
  }

  lemma KeysAre(usage: seq<Usage>, last: Usage)
    ensures HasOwner(last) && KeyOf(last) in KeysOf(usage) <==>
            exists j :: 0 <= j < |usage| && SameUse(usage[j], last)
  {
    forall u ensures SameUse(u, last) <==> HasOwner(u) && HasOwner(last) && KeyOf(u) == KeyOf(last) {
      SameUseIs(u, last);
    }
    hide SameUse, HasOwner, KeyOf;
    if HasOwner(last) && KeyOf(last) in KeysOf(usage) {
      var u :| u in usage && HasOwner(u) && KeyOf(u) == KeyOf(last);
      var j :| 0 <= j < |usage| && usage[j] == u;
      assert SameUse(usage[j], last);
    }
    if j :| 0 <= j < |usage| && SameUse(usage[j], last) {
      assert usage[j] in usage;
    }
  }

  /** `at` lists, in increasing order, where the kept rows stood. */
  ghost predicate KeptAt(usage: seq<Usage>, kept: seq<Usage>, at: seq<nat>)
  {
    && |at| == |kept|
    && (forall i :: 0 <= i < |at| ==> at[i] < |usage| && kept[i] == usage[at[i]])
    && (forall i, j :: 0 <= i < j < |at| ==> at[i] < at[j])
    && (forall k :: k in at <==> Remains(usage, k))
  }

  lemma RemainsInPrefix(usage: seq<Usage>, k: int)
    requires usage != []
    ensures k != |usage| - 1 ==> (Remains(usage, k) <==> Remains(usage[..|usage| - 1], k))
  {
    hide SameUse;
  }

  /** What is kept are exactly the rows that remain, in their order. */
  lemma {:induction false} DeduplicatedKeeps(usage: seq<Usage>) returns (at: seq<nat>)
    ensures KeptAt(usage, Deduplicated(usage), at)
  {
    hide SameUse, KeysOf, HasOwner, KeyOf, Remains;
    at := [];
    if usage == [] {
      NothingRemains();
    } else {
      var n := |usage| - 1;
      var init, last := usage[..n], usage[n];
      at := DeduplicatedKeeps(init);
      KeysAre(init, last);
      LastRemains(usage);
      forall k ensures k != n ==> (Remains(usage, k) <==> Remains(init, k)) {
        RemainsInPrefix(usage, k);
      }
      if Remains(usage, n) {
        at := at + [n];
      }
    }
  }

  lemma NothingRemains()
    ensures forall k :: !Remains([], k)
  {
  }

  lemma LastRemains(usage: seq<Usage>)
    requires usage != []
    ensures var n := |usage| - 1;
            Remains(usage, n) <==> !exists j :: 0 <= j < n && SameUse(usage[..n][j], usage[n])
  {
    hide SameUse;
    assert forall j :: 0 <= j < |usage| - 1 ==> usage[..|usage| - 1][j] == usage[j];
  }

  // ---- One run ----

  /** The rows before deduplication, one for every record that counts tokens, with that record's counters. */
  ghost predicate FromRecords(usage: seq<Usage>, records: seq<Record>, n: nat, base: nat)
    requires n <= |records|
  {
    S.Sequences(S.UsageRows(usage)) == S.Expected(records, n, base, S.Usages) && AllCounted(usage, records, base)
  }

  ghost predicate AllCounted(usage: seq<Usage>, records: seq<Record>, base: nat)
  {
    forall i :: 0 <= i < |usage| ==> CountedBy(usage[i], records, base)
  }

  ghost predicate CountedBy(u: Usage, records: seq<Record>, base: nat)
  {
    var k := u.row.sequence - base - 1;
    0 <= k < |records| && records[k].kind.EventMessage? && records[k].kind.tokenCount == Some(u.counters)
  }

  lemma TakeCounts(p: Progress, records: seq<Record>, n: nat, base: nat, around: Surroundings)
    requires n < |records| && AllCounted(p.data.usage, records, base)
    ensures AllCounted(Take(p, records[n], base + n + 1, around).data.usage, records, base)
  {
    hide MergeRolloutSession, Merged, RenamedParents, AddOrUpdateTurn, AddLifecycle, IsStateFallback;
  }

  lemma NothingCounted(records: seq<Record>, base: nat)
    ensures AllCounted([], records, base)
  {
  }

  lemma {:induction false} RunCounts(start: Progress, records: seq<Record>, n: nat, base: nat, around: Surroundings)
    requires n <= |records| && start.data.usage == []
    ensures AllCounted(RunFirst(start, records, n, base, around).data.usage, records, base)
  {
    hide Take, CountedBy, AllCounted;
    if n == 0 {
      assert AllCounted([], records, base) by { NothingCounted(records, base); }
    } else {
      RunCounts(start, records, n - 1, base, around);
      TakeCounts(RunFirst(start, records, n - 1, base, around), records, n - 1, base, around);
    }
  }

  /**
   * The usage rows of a run: there is one for every record that counts tokens, and it remains if and only if it names
   * neither session nor turn or no earlier one has, after rekeying, its session, turn and counters.
   */
  lemma UsageRemainsIff(path: Option<string>, records: seq<Record>, context: Context, base: nat, around: Surroundings)
    returns (all: seq<Usage>, at: seq<nat>)
    ensures FromRecords(all, records, |records|, base)
    ensures KeptAt(all, Run(path, records, context, base, around).data.usage, at)
  {
    hide RunFirst, Deduplicated, KeptAt, AllCounted, S.Sequences, S.Expected;
    var start := Start(path, context, around);
    all := RunFirst(start, records, |records|, base, around).data.usage;
    S.RunFirstKeepsRows(start, records, |records|, base, around, S.Usages);
    RunCounts(start, records, |records|, base, around);
    at := DeduplicatedKeeps(all);
  }

  function Report(turn: string, counters: Counters): Record
  {
    Record(Some(turn), None, EventMessage(None, None, Some(counters)))
  }

  lemma ReportIsCounted(p: Progress, turn: string, counters: Counters, sequence: nat, around: Surroundings)
    ensures var q := Take(p, Report(turn, counters), sequence, around);
            q.current == p.current
                && q.data.usage == p.data.usage + [Usage(Row(p.current, Some(turn), sequence), counters)]
  {
  }

  lemma SecondIsDropped(u: Usage, v: Usage)
    requires SameUse(u, v)
    ensures Deduplicated([u, v]) == [u]
  {
    KeysOfOne(u);
    NoKeys();
    assert [u, v][..1] == [u] && [u][..0] == [];
    assert Deduplicated([u]) == [] + [u];
    assert KeyOf(v) in KeysOf([u]);
  }

  /** Two reports of the same token counts in one turn leave one row. */
  lemma RepeatedReportLeavesOneRow(turn: string, counters: Counters, around: Surroundings)
    requires around.state == []
    ensures var report := Report(turn, counters);
            Run(None, [report, report], Context(None, None), 0, around).data.usage ==
            [Usage(Row(None, Some(turn), 1), counters)]
  {
    hide Deduplicated, Report, Take;
    var report := Report(turn, counters);
    var start := Start(None, Context(None, None), around);
    ReportIsCounted(start, turn, counters, 1, around);
    ReportIsCounted(Take(start, report, 1, around), turn, counters, 2, around);
    var twice := RunFirst(start, [report, report], 2, 0, around);
    assert RunFirst(start, [report, report], 1, 0, around) == Take(start, report, 1, around);
    var u, v := Usage(Row(None, Some(turn), 1), counters), Usage(Row(None, Some(turn), 2), counters);
    assert twice.data.usage == [] + [u] + [v] == [u, v];
    SecondIsDropped(u, v);
  }

  // ---- Renaming ----

  lemma KeyRenamed(u: Usage, v: Usage, from: string, to: string)
    requires from != to && u.row.session != Some(to) && v.row.session != Some(to)
    ensures var w := (x: Usage) => x.(row := x.row.(session := Renamed(x.row.session, from, to)));
            SameUse(w(u), w(v)) <==> SameUse(u, v)
  {
  }

  /** Rekeying before or after deduplication gives the same rows, as long as no row already names the new session. */
  lemma {:induction false} DeduplicatedRenamed(usage: seq<Usage>, from: string, to: string)
    requires from != to && forall u :: u in usage ==> u.row.session != Some(to)
    ensures Deduplicated(RenamedUsage(usage, from, to)) == RenamedUsage(Deduplicated(usage), from, to)
  {
    var renamed := RenamedUsage(usage, from, to);
    if usage != [] {
      var n := |usage| - 1;
      var init, last := usage[..n], usage[n];
      DeduplicatedRenamed(init, from, to);
      assert renamed[..n] == RenamedUsage(init, from, to);
      KeysAre(init, last);
      KeysAre(renamed[..n], renamed[n]);
      forall j | 0 <= j < n ensures SameUse(renamed[..n][j], renamed[n]) <==> SameUse(init[j], last) {
        assert init[j] in usage && last in usage;
        KeyRenamed(init[j], last, from, to);
      }
      hide KeysOf, HasOwner, KeyOf, SameUse;
      RenamedSnoc(Deduplicated(init), last, from, to);
      assert Deduplicated(init) + [] == Deduplicated(init);
      assert RenamedUsage(Deduplicated(init), from, to) + [] == RenamedUsage(Deduplicated(init), from, to);
    }
  }

  lemma RenamedSnoc(usage: seq<Usage>, u: Usage, from: string, to: string)
    ensures RenamedUsage(usage + [u], from, to) ==
            RenamedUsage(usage, from, to) + [u.(row := u.row.(session := Renamed(u.row.session, from, to)))]
  {
  }

  // ---- Polls and one batch ----

  /** Each poll starts with nothing seen. */
  function Polled(polls: seq<seq<Usage>>): seq<Usage>
  {
    if polls == [] then [] else Polled(polls[..|polls| - 1]) + Deduplicated(polls[|polls| - 1])
  }

  /** What a list adds after others of which the keys in `seen` were kept. */
  function Added(seen: set<UsageKey>, usage: seq<Usage>): seq<Usage>
  {
    if usage == [] then []
    else
      var init, last := usage[..|usage| - 1], usage[|usage| - 1];
      Added(seen, init) + if HasOwner(last) && KeyOf(last) in seen + KeysOf(init) then [] else [last]
  }

  lemma KeysConcat(a: seq<Usage>, b: seq<Usage>)
    ensures KeysOf(a + b) == KeysOf(a) + KeysOf(b)
  {
    hide HasOwner, KeyOf;
  }

  lemma {:induction false} DeduplicatedConcat(a: seq<Usage>, b: seq<Usage>)
    ensures Deduplicated(a + b) == Deduplicated(a) + Added(KeysOf(a), b)
  {
    hide HasOwner, KeyOf, KeysOf;
    if b == [] {
      assert a + b == a;
    } else {
      var init := b[..|b| - 1];
      assert (a + b)[..|a + b| - 1] == a + init;
      DeduplicatedConcat(a, init);
      KeysConcat(a, init);
    }
  }

  lemma {:induction false} AddedIs(seen: set<UsageKey>, usage: seq<Usage>)
    ensures |Added(seen, usage)| <= |Deduplicated(usage)|
    ensures |Added(seen, usage)| == |Deduplicated(usage)| <==> seen * KeysOf(usage) == {}
    ensures seen * KeysOf(usage) == {} ==> Added(seen, usage) == Deduplicated(usage)
  {
    if usage == [] {
      NoKeys();
    } else {
      var init, last := usage[..|usage| - 1], usage[|usage| - 1];
      AddedIs(seen, init);
      KeysConcat(init, [last]);
      assert usage == init + [last];
      KeysOfOne(last);
      hide HasOwner, KeyOf, KeysOf;
      if HasOwner(last) {
        assert KeyOf(last) in seen * KeysOf(usage) <==> KeyOf(last) in seen;
        assert seen * KeysOf(usage) == seen * KeysOf(init) + seen * {KeyOf(last)};
      }
    }
  }

  lemma NoKeys()
    ensures KeysOf([]) == {}
  {
  }

  lemma KeysOfOne(u: Usage)
    ensures KeysOf([u]) == if HasOwner(u) then {KeyOf(u)} else {}
  {
    assert u in [u];
  }

  /** Some row of a later poll repeats, by session, turn and counters, one of an earlier poll. */
  ghost predicate RepeatsLater(polls: seq<seq<Usage>>)
  {
    exists i, j, u, v :: RepeatedBy(polls, i, j, u, v)
  }

  ghost predicate RepeatedBy(polls: seq<seq<Usage>>, i: int, j: int, u: Usage, v: Usage)
  {
    0 <= i < j < |polls| && u in polls[i] && v in polls[j] && SameUse(u, v)
  }

  lemma {:induction false} ConcatMembers(polls: seq<seq<Usage>>, u: Usage)
    ensures u in Concat(polls) <==> exists i :: 0 <= i < |polls| && u in polls[i]
  {
    if polls != [] {
      var n := |polls| - 1;
      ConcatMembers(polls[..n], u);
      assert forall i :: 0 <= i < n ==> polls[..n][i] == polls[i];
      assert u in Concat(polls) <==> u in Concat(polls[..n]) || u in polls[n];
    }
  }

  lemma RepeatsLaterNext(polls: seq<seq<Usage>>)
    requires polls != []
    ensures var n := |polls| - 1;
            RepeatsLater(polls) <==> RepeatsLater(polls[..n]) || KeysOf(Concat(polls[..n])) * KeysOf(polls[n]) != {}
  {
    hide Concat, HasOwner, KeyOf;
    var n := |polls| - 1;
    var init := polls[..n];
    assert forall i :: 0 <= i < n ==> init[i] == polls[i];
    if i, j, u, v :| RepeatedBy(polls, i, j, u, v) {
      if j < n {
        assert RepeatedBy(init, i, j, u, v);
      } else {
        ConcatMembers(init, u);
        SameUseIs(u, v);
        assert KeyOf(u) in KeysOf(Concat(init)) * KeysOf(polls[n]);
      }
    }
    if i, j, u, v :| RepeatedBy(init, i, j, u, v) {
      assert RepeatedBy(polls, i, j, u, v);
    }
    if key :| key in KeysOf(Concat(init)) * KeysOf(polls[n]) {
      var u :| u in Concat(init) && HasOwner(u) && KeyOf(u) == key;
      var v :| v in polls[n] && HasOwner(v) && KeyOf(v) == key;
      ConcatMembers(init, u);
      var i :| 0 <= i < n && u in init[i];
      SameUseIs(u, v);
      assert RepeatedBy(polls, i, n, u, v);
    }
  }

  lemma {:induction false} PolledIsLonger(polls: seq<seq<Usage>>)
    ensures |Deduplicated(Concat(polls))| <= |Polled(polls)|
    ensures |Deduplicated(Concat(polls))| == |Polled(polls)| <==> !RepeatsLater(polls)
    ensures !RepeatsLater(polls) ==> Deduplicated(Concat(polls)) == Polled(polls)
  {
    hide KeysOf, HasOwner, KeyOf, RepeatsLater, Deduplicated;
    if polls == [] {
      NothingPolled();
    } else {
      var n := |polls| - 1;
      PolledIsLonger(polls[..n]);
      DeduplicatedConcat(Concat(polls[..n]), polls[n]);
      AddedIs(KeysOf(Concat(polls[..n])), polls[n]);
      RepeatsLaterNext(polls);
    }
  }

  lemma NothingPolled()
    ensures !RepeatsLater([]) && Deduplicated([]) == []
  {
  }

  /** Polls and one batch keep the same usage rows if and only if no row repeats one of an earlier poll. */
  lemma PollsKeepUsageIff(polls: seq<seq<Usage>>)
    ensures Polled(polls) == Deduplicated(Concat(polls)) <==> !RepeatsLater(polls)
  {
    hide Polled, Deduplicated, Concat, RepeatsLater;
    PolledIsLonger(polls);
  }

  /** The same token counts reported before and after a poll are kept twice. */
  lemma RepeatAcrossPollsIsKept(u: Usage, sequence: nat)
    requires HasOwner(u)
    ensures var polls := [[u], [u.(row := u.row.(sequence := sequence))]]; Polled(polls) != Deduplicated(Concat(polls))
  {
    hide Polled, Deduplicated, Concat;
    var v := u.(row := u.row.(sequence := sequence));
    assert RepeatedBy([[u], [v]], 0, 1, u, v);
    PollsKeepUsageIff([[u], [v]]);
  }
}
