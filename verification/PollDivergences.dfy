/** Logs that polls and one run leave different rows for, one for each way in which that can happen. */
module PollDivergences {
  import opened Wrappers
  import opened Slices
  import opened Sessions
  import opened SessionReferences
  import opened SessionPolls
  import opened LogsOfOneSession
  import opened UsagePolls
  import Order
  import U = UsageRows

  function Meta(session: Session): Record
  {
    Record(None, None, SessionMeta(Some(session)))
  }

  predicate IsOfLog(session: Session, kind: SourceKind, path: string)
  {
    session.kind == kind && session.rolloutPath == Some(path)
  }

  function OnlyState(s: Session): Surroundings
  {
    Surroundings([s], (x, y) => x == y)
  }

  const NO_STATE := Surroundings([], (x, y) => x == y)

  // ---- One record at a time ----

  lemma StartOf(s: Session, path: string)
    requires IsOfLog(s, State, path)
    ensures Start(Some(path), Context(None, None), OnlyState(s)) == Progress(NO_DATA, map[s.id := s], Some(s.id), None)
    ensures Start(None, Context(None, None), OnlyState(s)) == Progress(NO_DATA, map[], None, None)
  {
    FindOnly(s, (t: Session) => PathMatches(t.rolloutPath, Some(path), OnlyState(s)));
    FindOnly(s, (t: Session) => PathMatches(t.rolloutPath, None, OnlyState(s)));
    FindOnly(s, (t: Session) => t.id == s.id);
    hide Find;
  }

  lemma FindOnly(s: Session, p: Session -> bool)
    ensures Find([s], p) == if p(s) then Some(s) else None
  {
    assert [s][1..] == [];
  }

  /** Metadata of a log with no state session in sight. */
  lemma MetaLeads(p: Progress, session: Session, sequence: nat, around: Surroundings)
    ensures var q := Take(p, Meta(session), sequence, around);
            && q.current == Some(Merged(p.sessions, session, around).id) && q.turn.None?
            && (!IsStateFallback(p) ==> q.sessions == MergeRolloutSession(p.sessions, session, around))
  {
    hide MergeRolloutSession, Merged;
  }

  lemma OneStep(p: Progress, record: Record, base: nat, around: Surroundings)
    ensures RunFirst(p, [record], 1, base, around) == Take(p, record, base + 1, around)
  {
    hide Take;
    assert RunFirst(p, [record], 0, base, around) == p;
  }

  lemma TwoSteps(p: Progress, a: Record, b: Record, base: nat, around: Surroundings)
    ensures RunFirst(p, [a, b], 1, base, around) == Take(p, a, base + 1, around)
    ensures RunFirst(p, [a, b], 2, base, around) == Take(Take(p, a, base + 1, around), b, base + 2, around)
  {
    hide Take;
    assert RunFirst(p, [a, b], 0, base, around) == p;
  }

  lemma TwoPolls(a: seq<Record>, b: seq<Record>, path: string, around: Surroundings)
    ensures Concat([a, b]) == a + b && Concat([a]) == a
    ensures AllPolled([a], path, around) == NextPoll(Polled(None, NO_DATA, 0), a, path, around)
    ensures PollsAgree([a, b], path, around) <==>
            PollsAgree([a], path, around)
            && StepAgrees(AllPolled([a], path, around), Whole(a, path, around), b, path, around)
  {
    hide NextPoll, StepAgrees, Whole;
    assert [a, b][..1] == [a] && [a][..0] == [];
    assert Concat([a]) == [] + a;
  }

  // ---- A first poll without records ----

  /** A first poll that takes in no record carries no session, and state sessions are not looked at again. */
  lemma EmptyFirstPollLosesFallback(s: Session, record: Record, path: string)
    requires IsOfLog(s, State, path) && !BringsSession(record)
    ensures !PollsAgree([[], [record]], path, OnlyState(s))
    ensures !SameRows(AllPolled([[], [record]], path, OnlyState(s)).stored,
                      Batch([record], path, OnlyState(s)).data)
  {
    var around, polls := OnlyState(s), [[], [record]];
    TwoPolls([], [record], path, around);
    StartOf(s, path);
    hide Find;
    var carried := AllPolled([[]], path, around);
    assert carried.context == Some(Context(None, None)) && carried.count == 0;
    var start, p := PollStart(carried, [record], path, around), Whole([], path, around);
    assert start.current == None && p.current == Some(s.id);
    assert !StartAgrees(start, p, [record]);
    assert [] + [record] == [record];
    PollsAttributeAlikeIff(polls, path, around);
  }

  // ---- A session the next poll no longer holds ----

  lemma MergedIntoLeast(sessions: map<string, Session>, candidate: Session, path: string)
    requires forall k :: k in sessions ==> IsOfLog(sessions[k], Rollout, path) && sessions[k].id == k
    requires IsOfLog(candidate, Rollout, path) && candidate.rolloutId.Some? && candidate.id !in sessions
    requires sessions.Keys != {}
    ensures Merged(sessions, candidate, NO_STATE).id == Least(sessions.Keys)
  {
    hide Find, StateFor;
    var same := set k | k in sessions && SameRolloutSource(sessions[k], candidate, NO_STATE);
    assert same == sessions.Keys;
    assert Least(same) in sessions;
  }

  lemma LeastOfTwo(a: string, b: string)
    requires Order.StringLess(a, b)
    ensures Least({a, b}) == a
  {
    hide Order.StringLess;
    assert IsLeast({a, b}, a);
    LeastIsUnique({a, b}, a, Least({a, b}));
  }

  lemma TwoPlainSessions(a: Session, b: Session, path: string)
    requires IsOfLog(a, Rollout, path) && IsOfLog(b, Rollout, path) && a.rolloutId.None? && b.rolloutId.None?
    requires a.id != b.id
    ensures var q := Whole([Meta(a), Meta(b)], path, NO_STATE);
            q.sessions == map[a.id := a, b.id := b] && q.current == Some(b.id) && q.turn.None?
  {
    var start := Start(Some(path), Context(None, None), NO_STATE);
    assert start == Progress(NO_DATA, map[], None, None);
    hide Find, Take, MergeRolloutSession, Merged, TakeSessionMeta;
    TwoSteps(start, Meta(a), Meta(b), 0, NO_STATE);
    MetaLeads(start, a, 1, NO_STATE);
    UnrelatedSession(start, a, NO_STATE);
    UnrelatedIsAdded(start, a, 1);
    var p := Take(start, Meta(a), 1, NO_STATE);
    UnrelatedSession(p, b, NO_STATE);
    UnrelatedIsAdded(p, b, 2);
  }

  lemma UnrelatedIsAdded(p: Progress, session: Session, sequence: nat)
    ensures var q, r := Take(p, Meta(session), sequence, NO_STATE), TakeSessionMeta(p, session, NO_STATE);
            q.sessions == r.sessions && q.current == r.current && q.turn == r.turn
  {
    hide TakeSessionMeta;
  }

  /** The first poll, when it takes in records, is the whole run so far. */
  lemma FirstPoll(records: seq<Record>, path: string, around: Surroundings)
    requires records != []
    ensures var s, p := AllPolled([records], path, around), Whole(records, path, around);
            && s.count == |records| && s.context == Some(HandOver(p)) && s.stored.records == p.data.records
            && PollFirst(Polled(None, NO_DATA, 0), records, |records|, path, around) == p
  {
    hide RunFirst, Start, Deduplicated, HandOver;
    assert [records][..0] == [];
    NextPollIs(Polled(None, NO_DATA, 0), records, path, around);
  }

  lemma AfterTwoSessions(a: Session, b: Session, records: seq<Record>, path: string)
    requires IsOfLog(a, Rollout, path) && IsOfLog(b, Rollout, path) && a.rolloutId.None? && b.rolloutId.None?
    requires a.id != b.id
    ensures var s := AllPolled([[Meta(a), Meta(b)]], path, NO_STATE);
            var start := PollStart(s, records, path, NO_STATE);
            && s.count == 2 && s.context.Some? && PollAround(s, NO_STATE) == NO_STATE
            && start.sessions == map[b.id := b] && start.current == Some(b.id) && !IsStateFallback(start)
  {
    var first := [Meta(a), Meta(b)];
    hide Find, Whole, AllPolled;
    TwoPlainSessions(a, b, path);
    FirstPoll(first, path, NO_STATE);
  }

  /** Metadata with a rollout id leads to the least session that is held. */
  lemma LeadsToLeast(p: Progress, c: Session, base: nat, path: string)
    requires forall k :: k in p.sessions ==> IsOfLog(p.sessions[k], Rollout, path) && p.sessions[k].id == k
    requires IsOfLog(c, Rollout, path) && c.rolloutId.Some? && c.id !in p.sessions && p.sessions.Keys != {}
    ensures RunFirst(p, [Meta(c)], 1, base, NO_STATE).current == Some(Least(p.sessions.Keys))
  {
    hide Take, MergeRolloutSession, Merged, Least;
    OneStep(p, Meta(c), base, NO_STATE);
    MetaLeads(p, c, base + 1, NO_STATE);
    MergedIntoLeast(p.sessions, c, path);
  }

  /**
   * Two sessions of one log, and in the next poll one with a rollout id: it is merged into the first, or the second.
   */
  lemma LaterMetadataMergesElsewhere(a: Session, b: Session, c: Session, path: string)
    requires IsOfLog(a, Rollout, path) && IsOfLog(b, Rollout, path) && IsOfLog(c, Rollout, path)
    requires a.rolloutId.None? && b.rolloutId.None? && c.rolloutId.Some?
    requires Order.StringLess(a.id, b.id) && a.id != b.id && c.id != a.id && c.id != b.id
    ensures var polls := [[Meta(a), Meta(b)], [Meta(c)]];
            !PollsAgree(polls, path, NO_STATE)
            && !SameRows(AllPolled(polls, path, NO_STATE).stored, Batch(Concat(polls), path, NO_STATE).data)
  {
    var first, second := [Meta(a), Meta(b)], [Meta(c)];
    var s, p := AllPolled([first], path, NO_STATE), Whole(first, path, NO_STATE);
    var start := PollStart(s, second, path, NO_STATE);
    hide RunFirst, PollStart, AllPolled, Whole, Batch, Least, PollsAgree, PollAround, IsStateFallback, StartAgrees,
         RenamesAgree, Order.StringLess;
    TwoPolls(first, second, path, NO_STATE);
    TwoPlainSessions(a, b, path);
    AfterTwoSessions(a, b, second, path);
    assert start.sessions.Keys == {b.id} && p.sessions.Keys == {a.id, b.id};
    LeadsToLeast(start, c, 2, path);
    LeadsToLeast(p, c, 2, path);
    LeastOfTwo(a.id, b.id);
    assert Least({b.id}) in {b.id};
    assert !ChoiceAgrees(start, p, second, 0, 2, NO_STATE, NO_STATE);
    hide ChoiceAgrees;
    assert Concat([first, second]) == [Meta(a), Meta(b), Meta(c)];
    PollsAttributeAlikeIff([first, second], path, NO_STATE);
  }

  // ---- A state session that the log replaces ----

  function ReportRow(session: string, turn: string, sequence: nat, counters: Counters): Usage
  {
    Usage(Row(Some(session), Some(turn), sequence), counters)
  }

  lemma FirstReport(s: Session, turn: string, counters: Counters, path: string)
    requires IsOfLog(s, State, path)
    ensures var around, report := OnlyState(s), U.Report(turn, counters);
            var live, p := AllPolled([[report]], path, around), Whole([report], path, around);
            && p.sessions == map[s.id := s] && p.current == Some(s.id)
            && p.data.usage == [ReportRow(s.id, turn, 1, counters)]
            && live.count == 1 && live.context == Some(Context(Some(s), None))
            && PollAround(live, around) == NO_STATE
            && PollFirst(Polled(None, NO_DATA, 0), [report], 1, path, around) == p
            && (forall records :: PollStart(live, records, path, around) ==
                                  Progress(NO_DATA, map[s.id := s], Some(s.id), None))
  {
    var around, report := OnlyState(s), U.Report(turn, counters);
    StartOf(s, path);
    var start := Start(Some(path), Context(None, None), around);
    FirstPoll([report], path, around);
    OneStep(start, report, 0, around);
    U.ReportIsCounted(start, turn, counters, 1, around);
    OthersKeepSessions(start, report, 1, around);
    hide Find;
  }

  lemma OthersKeepSessions(p: Progress, record: Record, sequence: nat, around: Surroundings)
    requires record.kind.EventMessage? && record.kind.lifecycle.None?
    ensures var q := Take(p, record, sequence, around);
            q.sessions == p.sessions && q.current == p.current && q.turn == p.turn
  {
  }

  /** The first metadata of a log replaces the state session of its path. */
  lemma FallbackIsReplaced(p: Progress, s: Session, r: Session, sequence: nat, path: string, around: Surroundings)
    requires p.sessions == map[s.id := s] && p.current == Some(s.id)
    requires IsOfLog(s, State, path) && IsOfLog(r, Rollout, path) && s.id != r.id
    ensures var q := Take(p, Meta(r), sequence, around);
            q.sessions.Keys == {r.id} && q.current == Some(r.id) && q.sessions[r.id].kind == Rollout
            && q.data.usage == RenamedUsage(p.data.usage, s.id, r.id) && !IsStateFallback(q)
            && (around.state == [] ==> q.sessions[r.id].rolloutId == Fill(r.rolloutId, s.rolloutId))
  {
    hide StateFor;
    var same := set k | k in p.sessions && SameRolloutSource(p.sessions[k], r, around);
    assert same == {s.id} && Least(same) in same;
    assert Existing(p.sessions, r, around) == Some(s.id);
    NoStateForIt(r, around);
  }

  lemma NoStateForIt(r: Session, around: Surroundings)
    ensures around.state == [] ==> StateFor(r, around).None?
  {
  }

  /** The least session of the poll that replaced the fallback is not the one the run renamed its rows to. */
  lemma StoreRenamesToAnother(s: Session, z: Session, a: Session, turn: string, counters: Counters, path: string)
    requires IsOfLog(s, State, path) && IsOfLog(z, Rollout, path) && IsOfLog(a, Rollout, path)
    requires a.rolloutId.None? && z.rolloutId.None? && s.rolloutId.None?
    requires Order.StringLess(a.id, z.id) && a.id != z.id && s.id != a.id && s.id != z.id
    ensures var polls := [[U.Report(turn, counters)], [Meta(z), Meta(a)]];
            !PollsAgree(polls, path, OnlyState(s))
            && !SameRows(AllPolled(polls, path, OnlyState(s)).stored, Batch(Concat(polls), path, OnlyState(s)).data)
  {
    var around, first, second := OnlyState(s), [U.Report(turn, counters)], [Meta(z), Meta(a)];
    var live, p := AllPolled([first], path, around), Whole(first, path, around);
    hide AllPolled, Whole, Batch, Least, PollsAgree, Order.StringLess, Take, ChoicesAgree, StartAgrees, Find, Start;
    TwoPolls(first, second, path, around);
    FirstReport(s, turn, counters, path);
    var start := PollStart(live, second, path, around);
    TwoSteps(start, Meta(z), Meta(a), 1, NO_STATE);
    FallbackIsReplaced(start, s, z, 2, path, NO_STATE);
    FallbackIsReplaced(p, s, z, 2, path, around);
    PlainSecond(Take(start, Meta(z), 2, NO_STATE), z.id, a, 3, path);
    FirstOfTwo(p, Meta(z), Meta(a), 1, around);
    LeastOfTwo(a.id, z.id);
    var q := PollFirst(live, second, 2, path, around);
    var own := set k | k in q.sessions && k != s.id && q.sessions[k].kind == Rollout;
    assert own == {a.id, z.id};
    assert !RenamesAgree(live, p, RekeyTarget(live, q.sessions), FirstSession(p, second, 2, 1, around));
    assert Concat([first, second]) == [U.Report(turn, counters), Meta(z), Meta(a)];
    PollsAttributeAlikeIff([first, second], path, around);
  }

  lemma PlainSecond(p: Progress, z: string, a: Session, sequence: nat, path: string)
    requires p.sessions.Keys == {z} && p.sessions[z].kind == Rollout && p.sessions[z].rolloutId.None?
    requires IsOfLog(a, Rollout, path) && a.rolloutId.None? && a.id != z && !IsStateFallback(p)
    ensures var q := Take(p, Meta(a), sequence, NO_STATE);
            q.sessions.Keys == {z, a.id} && q.sessions[z].kind == Rollout && q.sessions[a.id].kind == Rollout
  {
    hide IsStateFallback;
    UnrelatedSession(p, a, NO_STATE);
    UnrelatedIsAdded(p, a, sequence);
  }

  lemma FirstOfTwo(p: Progress, a: Record, b: Record, base: nat, around: Surroundings)
    requires BringsSession(a)
    ensures Take(p, a, base + 1, around).current.Some? ==>
              FirstSession(p, [a, b], 2, base, around) == Take(p, a, base + 1, around).current
  {
    hide Take, BringsSession;
    TwoSteps(p, a, b, base, around);
    assert FirstSession(p, [a, b], 0, base, around) == None;
    assert FirstSession(p, [a, b], 1, base, around) == Take(p, a, base + 1, around).current;
  }

  // ---- The same token counts before and after ----

  lemma ReplacedInSecondPoll(s: Session, r: Session, turn: string, counters: Counters, path: string)
    requires IsOfLog(s, State, path) && IsOfLog(r, Rollout, path) && s.id != r.id
    ensures var around, report := OnlyState(s), U.Report(turn, counters);
            UsageByPoll([[report], [Meta(r), report]], path, around) ==
            [[ReportRow(r.id, turn, 1, counters)], [ReportRow(r.id, turn, 3, counters)]]
  {
    var around, report := OnlyState(s), U.Report(turn, counters);
    var first, second := [report], [Meta(r), report];
    var live, p := AllPolled([first], path, around), Whole(first, path, around);
    hide AllPolled, Whole, Least, Take, Find, Start, RenamedUsage;
    FirstReport(s, turn, counters, path);
    var start := PollStart(live, second, path, around);
    TwoSteps(start, Meta(r), report, 1, NO_STATE);
    FallbackIsReplaced(start, s, r, 2, path, NO_STATE);
    U.ReportIsCounted(Take(start, Meta(r), 2, NO_STATE), turn, counters, 3, NO_STATE);
    OthersKeepSessions(Take(start, Meta(r), 2, NO_STATE), report, 3, NO_STATE);
    var q := PollFirst(live, second, 2, path, around);
    assert q.sessions.Keys == {r.id}
        && q.data.usage == RenamedUsage([], s.id, r.id) + [ReportRow(r.id, turn, 3, counters)];
    var own := set k | k in q.sessions && k != s.id && q.sessions[k].kind == Rollout;
    assert own == {r.id} && Least(own) in own;
    assert RekeyTarget(live, q.sessions) == Some(r.id);
    RenamedReport(s.id, r.id, turn, counters);
    assert q.data.usage == [ReportRow(r.id, turn, 3, counters)];
    assert RekeyedParts(live, [p.data.usage], q.sessions) == RenamedParts([p.data.usage], s.id, r.id);
    hide RenamedParts, RekeyedParts, UsageByPoll, PollFirst, RunFirst, RekeyTarget;
    UsageOfTwoPolls(first, second, path, around);
  }

  lemma UsageOfTwoPolls(a: seq<Record>, b: seq<Record>, path: string, around: Surroundings)
    requires a != []
    ensures var live := AllPolled([a], path, around);
            var q := PollFirst(live, b, |b|, path, around);
            UsageByPoll([a, b], path, around) ==
            RekeyedParts(live, [Whole(a, path, around).data.usage], q.sessions) + [q.data.usage]
  {
    var p, nothing := Whole(a, path, around), Polled(None, NO_DATA, 0);
    hide PollFirst, Whole, RekeyedParts, NextPoll;
    FirstPoll(a, path, around);
    assert [a][..0] == [] && [a, b][..1] == [a];
    assert RekeyedParts(nothing, [], p.sessions) == [] by { NothingRekeyed(p); }
    assert UsageByPoll([a], path, around) == [] + [p.data.usage];
  }

  lemma NothingRekeyed(p: Progress)
    ensures RekeyedParts(Polled(None, NO_DATA, 0), [], p.sessions) == []
  {
  }

  lemma RenamedReport(from: string, to: string, turn: string, counters: Counters)
    ensures RenamedUsage([], from, to) == []
    ensures RenamedParts([[ReportRow(from, turn, 1, counters)]], from, to) == [[ReportRow(to, turn, 1, counters)]]
  {
    assert RenamedUsage([ReportRow(from, turn, 1, counters)], from, to) == [ReportRow(to, turn, 1, counters)];
  }

  /** Nothing repeats as the polls first attribute it, but once the fallback is replaced the polls keep a row twice. */
  lemma RepeatAcrossTheReplacement(s: Session, r: Session, turn: string, counters: Counters, path: string)
    requires IsOfLog(s, State, path) && IsOfLog(r, Rollout, path) && s.id != r.id
    ensures var around, report := OnlyState(s), U.Report(turn, counters);
            var polls := [[report], [Meta(r), report]];
            PollsAgree(polls, path, around)
            && AllPolled(polls, path, around).stored.usage != Batch(Concat(polls), path, around).data.usage
  {
    var around, report := OnlyState(s), U.Report(turn, counters);
    var polls := [[report], [Meta(r), report]];
    hide AllPolled, Batch, PollsAgree, UsageByPoll, StateIsPlain, OnlyState, SameRows;
    StateOfOne(s, path);
    TwoPolls([report], [Meta(r), report], path, around);
    var all := Concat(polls);
    assert all == [report, Meta(r), report];
    assert FirstCandidate(all, 0) == None && FirstCandidate(all, 1) == None;
    LogsOfOneSessionAgree(polls, path, around);
    ReplacedInSecondPoll(s, r, turn, counters, path);
    var u, v := ReportRow(r.id, turn, 1, counters), ReportRow(r.id, turn, 3, counters);
    assert U.RepeatedBy(UsageByPoll(polls, path, around), 0, 1, u, v);
    PollsKeepRowsIff(polls, path, around);
    PollsAttributeAlikeIff(polls, path, around);
  }

  lemma StateOfOne(s: Session, path: string)
    requires s.kind == State
    ensures StateIsPlain(path, OnlyState(s))
  {
  }
}
