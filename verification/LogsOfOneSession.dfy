/** Logs whose metadata records all lead to the first session they name: polls attribute their rows as one run does. */
module LogsOfOneSession {
  import opened Wrappers
  import opened Slices
  import opened Sessions
  import opened SessionReferences
  import opened SessionPolls

  // ---- The logs ----

  /** Candidates of a log are rollout sessions at the log's path. */
  predicate OfLog(records: seq<Record>, path: string)
  {
    forall i :: 0 <= i < |records| && BringsSession(records[i]) ==>
      var candidate := records[i].kind.candidate.value; candidate.kind == Rollout && candidate.rolloutPath == Some(path)
  }

  /** What the state database knows under the log's path are state sessions, and their ids are their own. */
  ghost predicate StateIsPlain(path: string, around: Surroundings)
  {
    && (forall s, t :: s in around.state && t in around.state && s.id == t.id ==> s == t)
    && forall s :: s in around.state && PathMatches(s.rolloutPath, Some(path), around) ==> s.kind == State
  }

  function FirstCandidate(records: seq<Record>, n: nat): Option<Session>
    requires n <= |records|
  {
    if n == 0 then None
    else
      var before := FirstCandidate(records, n - 1);
      if before.Some? then before
      else if BringsSession(records[n - 1]) then records[n - 1].kind.candidate
      else None
  }

  /** The candidate has the id of the first one, or one of the two has a rollout id. */
  predicate Joins(candidate: Session, first: Session)
  {
    candidate.id == first.id || candidate.rolloutId.Some? || first.rolloutId.Some?
  }

  /** Every candidate joins the first. */
  ghost predicate AllJoin(records: seq<Record>)
  {
    forall i: nat :: i < |records| && BringsSession(records[i]) && FirstCandidate(records, i).Some? ==>
      Joins(records[i].kind.candidate.value, FirstCandidate(records, i).value)
  }

  // ---- One run ----

  /** Nothing but the session the log named first, or before that the state session of the log's path, if any. */
  ghost predicate Single(p: Progress, first: Option<Session>, path: string, around: Surroundings)
  {
    match first
    case None =>
      || (p.current.None? && p.sessions == map[])
      || (p.current.Some? && p.sessions.Keys == {p.current.value}
          && var s := p.sessions[p.current.value];
             s.id == p.current.value && s.kind == State && PathMatches(s.rolloutPath, Some(path), around))
    case Some(f) =>
      && p.current == Some(f.id) && p.sessions.Keys == {f.id}
      && var s := p.sessions[f.id];
         s.id == f.id && s.kind == Rollout && s.rolloutPath == Some(path)
         && (f.rolloutId.Some? ==> s.rolloutId.Some?)
  }

  lemma FirstMetaIsSingle(p: Progress, candidate: Session, path: string, around: Surroundings, other: Surroundings)
    requires Single(p, None, path, around) && candidate.kind == Rollout && candidate.rolloutPath == Some(path)
    requires other.samePath == around.samePath
    ensures Single(TakeSessionMeta(p, candidate, other), Some(candidate), path, around)
  {
    hide StateFor;
  }

  lemma JoiningMetaIsSingle(p: Progress, first: Session, candidate: Session, path: string, around: Surroundings,
                            other: Surroundings)
    requires Single(p, Some(first), path, around) && candidate.kind == Rollout && candidate.rolloutPath == Some(path)
    requires Joins(candidate, first)
    ensures Single(TakeSessionMeta(p, candidate, other), Some(first), path, around)
  {
    hide StateFor;
    var known := p.sessions[first.id];
    if candidate.id != first.id {
      assert SameRolloutSource(known, candidate, other);
      var same := set k | k in p.sessions && SameRolloutSource(p.sessions[k], candidate, other);
      assert first.id in p.sessions.Keys && candidate.id !in p.sessions.Keys;
      assert same == {first.id} && Least(same) in same;
      assert Existing(p.sessions, candidate, other) == Some(first.id);
    }
    var merged := Merged(p.sessions, candidate, other);
    assert merged.id == first.id && merged.kind == Rollout && merged.rolloutPath == Some(path);
    assert !IsStateFallback(p);
  }

  lemma OthersKeepSingle(p: Progress, record: Record, sequence: nat, path: string, around: Surroundings,
                         other: Surroundings, first: Option<Session>)
    requires Single(p, first, path, around)
    ensures Single(Take(p, record, sequence, other), first, path, around) ||  BringsSession(record)
    ensures BringsSession(record) ==>
              var q := TakeSessionMeta(p, record.kind.candidate.value, other);
              Take(p, record, sequence, other).sessions == q.sessions
              && Take(p, record, sequence, other).current == q.current
  {
    hide AddOrUpdateTurn, AddLifecycle, TakeSessionMeta;
  }

  lemma {:induction false} RunIsSingle(p: Progress, start: Option<Session>, records: seq<Record>, n: nat, base: nat,
                                       path: string, around: Surroundings, other: Surroundings)
    requires n <= |records| && OfLog(records, path) && Single(p, start, path, around)
    requires other.samePath == around.samePath && AllJoinAfter(start, records)
    ensures Single(RunFirst(p, records, n, base, other),
                   if start.Some? then start else FirstCandidate(records, n), path, around)
  {
    hide Single, Take, TakeSessionMeta, Joins;
    if n > 0 {
      RunIsSingle(p, start, records, n - 1, base, path, around, other);
      var q, record := RunFirst(p, records, n - 1, base, other), records[n - 1];
      var first := if start.Some? then start else FirstCandidate(records, n - 1);
      OthersKeepSingle(q, record, base + n, path, around, other, first);
      if BringsSession(record) {
        var candidate := record.kind.candidate.value;
        if first.None? {
          FirstMetaIsSingle(q, candidate, path, around, other);
        } else {
          JoiningMetaIsSingle(q, first.value, candidate, path, around, other);
        }
        SingleLooksAtSessions(TakeSessionMeta(q, candidate, other), Take(q, record, base + n, other),
                              if first.Some? then first else Some(candidate), path, around);
      }
    }
  }

  lemma SingleLooksAtSessions(p: Progress, q: Progress, first: Option<Session>, path: string, around: Surroundings)
    requires Single(p, first, path, around) && q.sessions == p.sessions && q.current == p.current
    ensures Single(q, first, path, around)
  {
  }

  /** Every candidate joins the first, which may have come before these records. */
  ghost predicate AllJoinAfter(start: Option<Session>, records: seq<Record>)
  {
    forall i: nat :: i < |records| && BringsSession(records[i]) ==>
      var first := if start.Some? then start else FirstCandidate(records, i);
      first.None? || Joins(records[i].kind.candidate.value, first.value)
  }

  // ---- Polls ----

  lemma StartIsSingle(path: string, around: Surroundings)
    requires StateIsPlain(path, around)
    ensures Single(Start(Some(path), Context(None, None), around), None, path, around)
  {
    hide PathMatches;
    var byPath := (t: Session) => PathMatches(t.rolloutPath, Some(path), around);
    var matched := Find(around.state, byPath);
    if matched.Some? {
      var byId := (t: Session) => t.id == matched.value.id;
      assert byId(matched.value);
      assert Find(around.state, byId) == matched;
    }
    hide Find;
  }

  lemma {:induction false} FirstOfConcat(a: seq<Record>, b: seq<Record>, n: nat)
    requires n <= |b|
    ensures FirstCandidate(a + b, |a| + n) ==
            if FirstCandidate(a, |a|).Some? then FirstCandidate(a, |a|) else FirstCandidate(b, n)
  {
    if n > 0 {
      FirstOfConcat(a, b, n - 1);
    } else {
      FirstOfPrefix(a, b, |a|);
    }
  }

  lemma {:induction false} FirstOfPrefix(a: seq<Record>, b: seq<Record>, n: nat)
    requires n <= |a|
    ensures FirstCandidate(a + b, n) == FirstCandidate(a, n)
  {
    if n > 0 {
      FirstOfPrefix(a, b, n - 1);
    }
  }

  lemma PartsJoin(a: seq<Record>, b: seq<Record>, path: string)
    requires AllJoin(a + b) && OfLog(a + b, path)
    ensures AllJoin(a) && AllJoinAfter(FirstCandidate(a, |a|), b) && OfLog(a, path) && OfLog(b, path)
    ensures AllFromLog(a) && AllFromLog(b)
  {
    hide Joins, FirstCandidate;
    var all := a + b;
    assert forall i :: 0 <= i < |a| ==> a[i] == all[i];
    assert forall i :: 0 <= i < |b| ==> b[i] == all[|a| + i];
    forall i: nat | i < |a| ensures FirstCandidate(a, i) == FirstCandidate(all, i) {
      FirstOfPrefix(a, b, i);
    }
    forall i: nat | i < |b| && BringsSession(b[i])
      ensures var start := FirstCandidate(a, |a|);
              var first := if start.Some? then start else FirstCandidate(b, i);
              first.None? || Joins(b[i].kind.candidate.value, first.value)
    {
      FirstOfConcat(a, b, i);
      assert all[|a| + i] == b[i];
    }
  }

  /** What is carried between polls is what the whole run is in. */
  ghost predicate Beside(s: Polled, p: Progress, first: Option<Session>, path: string, around: Surroundings)
  {
    && Single(p, first, path, around)
    && (s.context.Some? ==> CarriedName(s) == p.current && CarriesSingle(s, first, path, around))
  }

  ghost predicate CarriesSingle(s: Polled, first: Option<Session>, path: string, around: Surroundings)
  {
    var carried := PollContext(s).session;
    match first
    case None => carried.Some? ==>
        carried.value.kind == State && PathMatches(carried.value.rolloutPath, Some(path), around)
    case Some(f) =>
      && carried.Some? && carried.value.id == f.id && carried.value.kind == Rollout
      && carried.value.rolloutPath == Some(path) && (f.rolloutId.Some? ==> carried.value.rolloutId.Some?)
  }

  lemma PollStartIsSingle(s: Polled, p: Progress, first: Option<Session>, records: seq<Record>, path: string,
                          around: Surroundings)
    requires InStep(s, p, path, around) && Beside(s, p, first, path, around) && (s.context.None? ==> records != [])
    ensures var start := PollStart(s, records, path, around);
            Single(start, first, path, around) && start.current == p.current
  {
    hide Early, Late, SameTurns, NamedByFallback, PathMatches, Start;
    PollStartIs(s, p, records, path, around);
  }

  lemma CarriesOn(s: Polled, q: Progress, first: Option<Session>, path: string, around: Surroundings)
    requires Single(q, first, path, around) && s.context == Some(HandOver(q))
    ensures CarriesSingle(s, first, path, around) && CarriedName(s) == q.current
  {
    hide Find, PathMatches;
    assert q.current.Some? ==> q.current.value in q.sessions.Keys;
  }

  function FirstAfter(first: Option<Session>, records: seq<Record>, n: nat): Option<Session>
    requires n <= |records|
  {
    if first.Some? then first else FirstCandidate(records, n)
  }

  lemma SingleChoices(s: Polled, p: Progress, first: Option<Session>, records: seq<Record>, path: string,
                      around: Surroundings)
    requires InStep(s, p, path, around) && Beside(s, p, first, path, around) && (s.context.None? ==> records != [])
    requires OfLog(records, path) && AllJoinAfter(first, records)
    ensures var start := PollStart(s, records, path, around);
            && StartAgrees(start, p, records)
            && ChoicesAgree(start, p, records, s.count, PollAround(s, around), around)
  {
    hide Single, PollStart, RunFirst, InStep, OfLog, AllJoinAfter, FirstCandidate, CarriesSingle, CarriedName;
    var start := PollStart(s, records, path, around);
    PollStartIsSingle(s, p, first, records, path, around);
    forall i: nat | i < |records| ensures ChoiceAgrees(start, p, records, i, s.count, PollAround(s, around), around) {
      if BringsSession(records[i]) {
        RunIsSingle(start, first, records, i + 1, s.count, path, around, PollAround(s, around));
        RunIsSingle(p, first, records, i + 1, s.count, path, around, around);
        BroughtIsFound(records, i);
        SingleCurrent(RunFirst(start, records, i + 1, s.count, PollAround(s, around)),
            FirstAfter(first, records, i + 1),
                      path, around);
        SingleCurrent(RunFirst(p, records, i + 1, s.count, around), FirstAfter(first, records, i + 1), path, around);
      }
    }
  }

  lemma BroughtIsFound(records: seq<Record>, i: nat)
    requires i < |records| && BringsSession(records[i])
    ensures FirstCandidate(records, i + 1).Some?
  {
  }

  lemma SingleCurrent(p: Progress, first: Option<Session>, path: string, around: Surroundings)
    requires Single(p, first, path, around)
    ensures first.Some? ==> p.current == Some(first.value.id) && !IsStateFallback(p)
  {
  }

  lemma SingleRenames(s: Polled, p: Progress, first: Option<Session>, records: seq<Record>, path: string,
                      around: Surroundings)
    requires InStep(s, p, path, around) && Beside(s, p, first, path, around) && s.context.Some?
    requires OfLog(records, path) && AllFromLog(records) && AllJoinAfter(first, records) && IsStateFallback(p)
    ensures var q := PollFirst(s, records, |records|, path, around);
            RenamesAgree(s, p, RekeyTarget(s, q.sessions), FirstSession(p, records, |records|, s.count, around))
  {
    hide PollStart, RunFirst, OfLog, AllJoinAfter, FirstCandidate, FirstSession, RekeyTarget, Early, Late, SameTurns,
         PathMatches, AllFromLog, PollAround, Start, NamedByFallback, IsStateFallback;
    var start, n := PollStart(s, records, path, around), |records|;
    var q := PollFirst(s, records, n, path, around);
    SingleCurrent(p, first, path, around);
    PollStartIsSingle(s, p, first, records, path, around);
    PollStartIs(s, p, records, path, around);
    StartsAreAlike(s, p, records, path, around);
    FirstsAgree(start, p, records, n, s.count, PollAround(s, around), around);
    if FirstSession(p, records, n, s.count, around).None? {
      RunWithoutMetadata(start, records, n, s.count, PollAround(s, around));
      NothingToRekey(s, q);
    } else {
      hide InStep, Beside, Single, CarriesSingle;
      var i := FirstIsCurrent(p, records, n, s.count, around);
      SamePaths(s, around);
      RunIsSingle(p, first, records, i + 1, s.count, path, around, around);
      RunIsSingle(start, first, records, n, s.count, path, around, PollAround(s, around));
      BroughtIsFound(records, i);
      FirstCandidateStays(records, n, i + 1);
      SingleCurrent(RunFirst(p, records, i + 1, s.count, around), FirstCandidate(records, i + 1), path, around);
      TargetOfSingle(s, q, FirstCandidate(records, n).value, path, around);
    }
  }

  lemma SamePaths(s: Polled, around: Surroundings)
    ensures PollAround(s, around).samePath == around.samePath
  {
  }

  lemma {:induction false} FirstCandidateStays(records: seq<Record>, n: nat, k: nat)
    requires k <= n <= |records| && FirstCandidate(records, k).Some?
    ensures FirstCandidate(records, n) == FirstCandidate(records, k)
  {
    if k < n {
      FirstCandidateStays(records, n - 1, k);
    }
  }

  lemma TargetOfSingle(s: Polled, q: Progress, first: Session, path: string, around: Surroundings)
    requires Single(q, Some(first), path, around)
    requires PollContext(s).session.Some? && PollContext(s).session.value.kind == State
    ensures RekeyTarget(s, q.sessions) == if CarriedName(s) == Some(first.id) then None else Some(first.id)
  {
    var carried := PollContext(s).session.value;
    var own := set k | k in q.sessions && k != carried.id && q.sessions[k].kind == Rollout;
    assert first.id in q.sessions.Keys;
    assert own == if carried.id == first.id then {} else {first.id};
    if own != {} {
      assert Least(own) in own;
    }
  }

  /**
   * When every candidate has the first one's id, or one of the two has a rollout id, polls attribute every row as one
   * run over the whole log does, wherever they cut it, as long as the first poll reads a record.
   */
  lemma {:induction false} LogsOfOneSessionAgree(polls: seq<seq<Record>>, path: string, around: Surroundings)
    requires OfLog(Concat(polls), path) && AllJoin(Concat(polls)) && StateIsPlain(path, around)
    requires polls != [] ==> polls[0] != []
    ensures PollsAgree(polls, path, around)
    ensures var all := Concat(polls);
            Beside(AllPolled(polls, path, around), Whole(all, path, around), FirstCandidate(all, |all|), path, around)
  {
    hide Single, CarriesSingle, NextPoll, StepAgrees, StateIsPlain, AllJoin, OfLog, FirstCandidate, Start, CarriedName,
         AllFromLog, InStep, Joins;
    if polls == [] {
      NothingPolled(path, around);
    } else {
      var init, last := polls[..|polls| - 1], polls[|polls| - 1];
      var before, first := Concat(init), FirstCandidate(Concat(init), |Concat(init)|);
      PartsJoin(before, last, path);
      LogsOfOneSessionAgree(init, path, around);
      PollsStayInStep(init, path, around);
      WholeNext(polls, path, around);
      FirstOfConcat(before, last, |last|);
      OneMorePoll(AllPolled(init, path, around), Whole(before, path, around), first, last, path, around);
    }
  }

  lemma NothingPolled(path: string, around: Surroundings)
    requires StateIsPlain(path, around)
    ensures Beside(Polled(None, NO_DATA, 0), Whole([], path, around), FirstCandidate([], 0), path, around)
  {
    hide StateIsPlain, Start, Single;
    StartIsSingle(path, around);
  }

  lemma OneMorePoll(s: Polled, p: Progress, first: Option<Session>, records: seq<Record>, path: string,
                    around: Surroundings)
    requires InStep(s, p, path, around) && Beside(s, p, first, path, around) && (s.context.None? ==> records != [])
    requires OfLog(records, path) && AllFromLog(records) && AllJoinAfter(first, records)
    ensures StepAgrees(s, p, records, path, around)
    ensures var next, n := NextPoll(s, records, path, around), |records|;
            Beside(next, RunFirst(p, records, n, s.count, around), FirstAfter(first, records, n), path, around)
  {
    hide PollStart, RunFirst, OfLog, AllJoinAfter, FirstCandidate, FirstSession, RekeyTarget, Early, Late, SameTurns,
         AllFromLog, Start, NamedByFallback, IsStateFallback, Single, CarriesSingle, NextPoll, ChoicesAgree,
         StartAgrees, Known, CarriedName;
    var start, n := PollStart(s, records, path, around), |records|;
    SingleChoices(s, p, first, records, path, around);
    if s.count > 0 && IsStateFallback(p) {
      SingleRenames(s, p, first, records, path, around);
    }
    PollStartIsSingle(s, p, first, records, path, around);
    SamePaths(s, around);
    RunIsSingle(start, first, records, n, s.count, path, around, PollAround(s, around));
    RunIsSingle(p, first, records, n, s.count, path, around, around);
    NextPollIs(s, records, path, around);
    CurrentsAgree(start, p, records, n, s.count, PollAround(s, around), around);
    CarriesOn(NextPoll(s, records, path, around), PollFirst(s, records, n, path, around), FirstAfter(first, records, n),
              path, around);
  }
}
