/** The usage rows that polls leave in the store against those of one run over the same log. */
module UsagePolls {
  import opened Wrappers
  import opened Slices
  import opened Sessions
  import opened SessionReferences
  import opened SessionPolls
  import U = UsageRows

  // ---- The rows of each poll ----

  function RenamedParts(parts: seq<seq<Usage>>, from: string, to: string): (renamed: seq<seq<Usage>>)
    ensures |renamed| == |parts|
    ensures forall i :: 0 <= i < |parts| ==> renamed[i] == RenamedUsage(parts[i], from, to)
  {
    seq(|parts|, i requires 0 <= i < |parts| => RenamedUsage(parts[i], from, to))
  }

  /** Usage rows of earlier polls once the store has renamed them. */
  function RekeyedParts(s: Polled, parts: seq<seq<Usage>>, sessions: map<string, Session>): seq<seq<Usage>>
  {
    var target := RekeyTarget(s, sessions);
    if target.None? then parts else RenamedParts(parts, PollContext(s).session.value.id, target.value)
  }

  /** One list for each poll: its usage rows, repeated ones included, under the sessions the store ends up with. */
  function UsageByPoll(polls: seq<seq<Record>>, path: string, around: Surroundings): seq<seq<Usage>>
  {
    if polls == [] then []
    else
      var init, last := polls[..|polls| - 1], polls[|polls| - 1];
      var s := AllPolled(init, path, around);
      var q := PollFirst(s, last, |last|, path, around);
      RekeyedParts(s, UsageByPoll(init, path, around), q.sessions) + [q.data.usage]
  }

  lemma {:induction false} ConcatRenamed(parts: seq<seq<Usage>>, from: string, to: string)
    ensures Concat(RenamedParts(parts, from, to)) == RenamedUsage(Concat(parts), from, to)
  {
    if parts != [] {
      var n := |parts| - 1;
      ConcatRenamed(parts[..n], from, to);
      assert RenamedParts(parts, from, to)[..n] == RenamedParts(parts[..n], from, to);
    }
  }

  lemma ConcatSnoc(parts: seq<seq<Usage>>, last: seq<Usage>)
    ensures Concat(parts + [last]) == Concat(parts) + last
    ensures U.Polled(parts + [last]) == U.Polled(parts) + Deduplicated(last)
  {
    assert (parts + [last])[..|parts|] == parts;
  }

  /** Joined, they are the rows of the counting records. */
  lemma {:induction false} UsageIsPicked(polls: seq<seq<Record>>, path: string, around: Surroundings)
    ensures var stored := AllPolled(polls, path, around).stored.records;
            |stored| == |Concat(polls)| && Concat(UsageByPoll(polls, path, around)) == PickUsage(stored, Concat(polls))
  {
    hide NextPoll, PollFirst, PickUsage, RekeyTarget, RenamedParts, Follows, UsageFollows;
    if polls != [] {
      var init, last := polls[..|polls| - 1], polls[|polls| - 1];
      UsageIsPicked(init, path, around);
      UsageIsPickedNext(init, last, path, around);
    } else {
      assert PickUsage([], []) == [] by { NothingFollows(); }
    }
  }

  lemma UsageIsPickedNext(init: seq<seq<Record>>, last: seq<Record>, path: string, around: Surroundings)
    requires var s := AllPolled(init, path, around);
             && |s.stored.records| == |Concat(init)|
             && Concat(UsageByPoll(init, path, around)) == PickUsage(s.stored.records, Concat(init))
    ensures var s := AllPolled(init, path, around);
            var q, next := PollFirst(s, last, |last|, path, around), NextPoll(s, last, path, around);
            && |next.stored.records| == |Concat(init) + last|
            && Concat(RekeyedParts(s, UsageByPoll(init, path, around), q.sessions) + [q.data.usage]) ==
               PickUsage(next.stored.records, Concat(init) + last)
  {
    var s, before := AllPolled(init, path, around), Concat(init);
    var q, parts := PollFirst(s, last, |last|, path, around), UsageByPoll(init, path, around);
    hide NextPoll, PollFirst, PickUsage, RekeyTarget, RenamedParts, AllPolled, UsageByPoll, Concat, RenamedRows,
         RenamedUsage;
    NextPollIs(s, last, path, around);
    StoredFollows(init, path, around);
    PolledFollows(s, last, before, path, around);
    TargetIsOther(s, q.sessions);
    var target := RekeyTarget(s, q.sessions);
    var rekeyed := Rekeyed(s, q.sessions).records;
    if target.Some? {
      var from := PollContext(s).session.value.id;
      ConcatRenamed(parts, from, target.value);
      PickRenamed(s.stored.records, before, from, target.value, Messages);
      assert rekeyed == RenamedRows(s.stored.records, from, target.value);
    }
    ConcatSnoc(RekeyedParts(s, parts, q.sessions), q.data.usage);
    PickConcat(rekeyed, q.data.records, before, last, Messages);
  }

  // ---- What the store keeps ----

  lemma {:induction false} PolledRenamed(parts: seq<seq<Usage>>, from: string, to: string)
    requires from != to && forall u: Usage :: u in Concat(parts) ==> u.row.session != Some(to)
    ensures U.Polled(RenamedParts(parts, from, to)) == RenamedUsage(U.Polled(parts), from, to)
  {
    hide Deduplicated;
    if parts != [] {
      var n := |parts| - 1;
      assert Concat(parts) == Concat(parts[..n]) + parts[n];
      PolledRenamed(parts[..n], from, to);
      U.DeduplicatedRenamed(parts[n], from, to);
      assert RenamedParts(parts, from, to)[..n] == RenamedParts(parts[..n], from, to);
    }
  }

  /** Repeated rows are dropped poll by poll, and renaming the stored ones later makes no difference to that. */
  lemma {:induction false} StoredUsageIs(polls: seq<seq<Record>>, path: string, around: Surroundings)
    requires AllFromLog(Concat(polls))
    ensures AllPolled(polls, path, around).stored.usage == U.Polled(UsageByPoll(polls, path, around))
  {
    hide NextPoll, PollFirst, RekeyTarget, RenamedParts, AllFromLog, Whole;
    if polls != [] {
      var init, last := polls[..|polls| - 1], polls[|polls| - 1];
      WholeNext(polls, path, around);
      StoredUsageIs(init, path, around);
      StoredUsageNext(init, last, path, around);
    }
  }

  lemma StoredUsageNext(init: seq<seq<Record>>, last: seq<Record>, path: string, around: Surroundings)
    requires AllFromLog(Concat(init))
    requires AllPolled(init, path, around).stored.usage == U.Polled(UsageByPoll(init, path, around))
    ensures var s := AllPolled(init, path, around);
            var q, next := PollFirst(s, last, |last|, path, around), NextPoll(s, last, path, around);
            next.stored.usage == U.Polled(RekeyedParts(s, UsageByPoll(init, path, around), q.sessions) + [q.data.usage])
  {
    var s, parts := AllPolled(init, path, around), UsageByPoll(init, path, around);
    var q := PollFirst(s, last, |last|, path, around);
    hide PickUsage, RekeyTarget, RenamedParts, AllPolled, UsageByPoll, Concat, RenamedUsage, RunFirst, Start,
         Deduplicated, Find, AllFromLog, Whole, Known, NamedByFallback, SameTurns, IsStateFallback;
    TargetIsOther(s, q.sessions);
    var target := RekeyTarget(s, q.sessions);
    ConcatSnoc(RekeyedParts(s, parts, q.sessions), q.data.usage);
    if target.Some? {
      var from := PollContext(s).session.value.id;
      UsageIsPicked(init, path, around);
      PickMembers(s.stored.records, Concat(init), Messages);
      PollsStayInStep(init, path, around);
      OnlyFallbackIsRenamed(s, Whole(Concat(init), path, around), q.sessions, path, around);
      forall u: Usage | u in Concat(parts) ensures u.row.session != target {
        assert u.row in s.stored.records;
      }
      PolledRenamed(parts, from, target.value);
    }
  }

  lemma OnlyFallbackIsRenamed(s: Polled, p: Progress, sessions: map<string, Session>, path: string,
                              around: Surroundings)
    requires InStep(s, p, path, around) && RekeyTarget(s, sessions).Some?
    ensures forall row :: row in s.stored.records ==> row.session == CarriedName(s)
  {
  }

  /**
   * Polls leave the rows of every list, usage rows included, that one run over the whole log leaves, if and only if
   * they attribute them as that run does and no usage row, as attributed in the end, repeats one of an earlier poll.
   */
  lemma PollsKeepRowsIff(polls: seq<seq<Record>>, path: string, around: Surroundings)
    requires AllFromLog(Concat(polls))
    ensures var live, batch := AllPolled(polls, path, around).stored, Batch(Concat(polls), path, around).data;
            SameRows(live, batch) && live.usage == batch.usage <==>
            PollsAgree(polls, path, around) && !U.RepeatsLater(UsageByPoll(polls, path, around))
  {
    hide AllPolled, Batch, Whole, PollsAgree, U.RepeatsLater, UsageByPoll, AllFromLog, U.Polled, Deduplicated,
         PickUsage;
    PollsAttributeAlikeIff(polls, path, around);
    StoredUsageIs(polls, path, around);
    UsageIsPicked(polls, path, around);
    WholeFollows(Concat(polls), path, around);
    BatchIs(Concat(polls), path, around);
    U.PollsKeepUsageIff(UsageByPoll(polls, path, around));
  }
}
