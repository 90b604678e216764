/** Which sessions a metadata record is merged with, and which value each field then takes, src/normalize.rs. */
module SessionMerging {
  import opened Wrappers
  import Order
  import opened Sessions

  // ---- Sessions that belong together ----

  /** Both logs are given and are one, by spelling or by what the spellings lead to. */
  predicate SameLog(a: Option<string>, b: Option<string>, around: Surroundings)
  {
    && a != None && b != None
    && (a.value == b.value || around.samePath(a.value, b.value))
  }

  /** Of one log, and one is known by a rollout id or comes from the state database. */
  predicate FromOneSource(a: Session, b: Session, around: Surroundings)
  {
    && SameLog(a.rolloutPath, b.rolloutPath, around)
    && !(a.rolloutId == None && b.rolloutId == None && a.kind == Rollout && b.kind == Rollout)
  }

  predicate Shared(a: Option<string>, b: Option<string>)
  {
    a != None && b != None && a.value == b.value
  }

  /** Two thread ids decide; without them a shared rollout or session id does. */
  predicate OneIdentity(a: Session, b: Session)
  {
    || a.id == b.id
    || Shared(a.threadId, b.threadId)
    || ((a.threadId == None || b.threadId == None)
        && (Shared(a.rolloutId, b.rolloutId) || Shared(a.sessionId, b.sessionId)))
  }

  ghost predicate IsFirstWith(items: seq<Session>, p: Session -> bool, i: nat)
  {
    i < |items| && p(items[i]) && forall j: nat :: j < i ==> !p(items[j])
  }

  ghost predicate NoneHas(items: seq<Session>, p: Session -> bool)
  {
    forall i: nat :: i < |items| ==> !p(items[i])
  }

  ghost predicate IsFind(found: Option<Session>, items: seq<Session>, p: Session -> bool)
  {
    if found.Some? then exists i: nat :: IsFirstWith(items, p, i) && items[i] == found.value else NoneHas(items, p)
  }

  /** The state session of the candidate: by its id, else by its log, else by another identity; each time the first. */
  ghost predicate IsStateSession(found: Option<Session>, candidate: Session, around: Surroundings)
  {
    var ofId := (s: Session) => s.id == candidate.id;
    var ofLog := (s: Session) => SameLog(s.rolloutPath, candidate.rolloutPath, around);
    var ofIdentity := (s: Session) => OneIdentity(candidate, s);
    if !NoneHas(around.state, ofId) then IsFind(found, around.state, ofId)
    else if !NoneHas(around.state, ofLog) then IsFind(found, around.state, ofLog)
    else IsFind(found, around.state, ofIdentity)
  }

  /** The known session of the candidate: of its id, or else the first by id of one source. */
  ghost predicate IsKnown(found: Option<string>, sessions: map<string, Session>, candidate: Session,
                          around: Surroundings)
  {
    if candidate.id in sessions then found == Some(candidate.id)
    else
      match found
      case Some(id) =>
        && id in sessions && FromOneSource(sessions[id], candidate, around)
        && forall other :: other in sessions && FromOneSource(sessions[other], candidate, around) && other != id ==>
             Order.StringLess(id, other)
      case None => forall id :: id in sessions ==> !FromOneSource(sessions[id], candidate, around)
  }

  lemma {:induction false} FindIs(items: seq<Session>, p: Session -> bool)
    ensures IsFind(Find(items, p), items, p)
  {
    if items != [] && !p(items[0]) {
      FindIs(items[1..], p);
      var found := Find(items[1..], p);
      assert forall i :: 1 <= i < |items| ==> items[i] == items[1..][i - 1];
      if found.Some? {
        var i: nat :| IsFirstWith(items[1..], p, i) && items[1..][i] == found.value;
        assert IsFirstWith(items, p, i + 1);
      }
    } else if items != [] {
      assert IsFirstWith(items, p, 0);
    }
  }

  lemma {:induction false} FindAlike(items: seq<Session>, p: Session -> bool, q: Session -> bool)
    requires forall s :: p(s) <==> q(s)
    ensures Find(items, p) == Find(items, q)
  {
    if items != [] && !p(items[0]) {
      FindAlike(items[1..], p, q);
    }
  }

  lemma NoneIsFound(items: seq<Session>, p: Session -> bool)
    ensures Find(items, p).None? <==> NoneHas(items, p)
  {
    FindIs(items, p);
    hide Find;
    if Find(items, p).Some? {
      var i: nat :| IsFirstWith(items, p, i) && items[i] == Find(items, p).value;
    }
  }

  lemma PathsMatch(a: Option<string>, b: Option<string>, around: Surroundings)
    ensures PathMatches(a, b, around) <==> SameLog(a, b, around)
  {
  }

  lemma IdentitiesAre(a: Session, b: Session)
    ensures IdentitiesMatch(a, b) <==> OneIdentity(a, b)
  {
  }

  lemma SourcesAre(a: Session, b: Session, around: Surroundings)
    ensures SameRolloutSource(a, b, around) <==> FromOneSource(a, b, around)
  {
  }

  lemma StateSessionIs(candidate: Session, around: Surroundings)
    ensures IsStateSession(StateFor(candidate, around), candidate, around)
  {
    var ofId := (s: Session) => s.id == candidate.id;
    var ofLog := (s: Session) => SameLog(s.rolloutPath, candidate.rolloutPath, around);
    var ofIdentity := (s: Session) => OneIdentity(candidate, s);
    forall s: Session ensures PathMatches(s.rolloutPath, candidate.rolloutPath, around) <==> ofLog(s) {
      PathsMatch(s.rolloutPath, candidate.rolloutPath, around);
    }
    forall s: Session ensures IdentitiesMatch(candidate, s) <==> ofIdentity(s) {
      IdentitiesAre(candidate, s);
    }
    FindAlike(around.state, (s: Session) => PathMatches(s.rolloutPath, candidate.rolloutPath, around), ofLog);
    FindAlike(around.state, (s: Session) => IdentitiesMatch(candidate, s), ofIdentity);
    NoneIsFound(around.state, ofId);
    NoneIsFound(around.state, ofLog);
    FindIs(around.state, ofId);
    FindIs(around.state, ofLog);
    FindIs(around.state, ofIdentity);
    FindAlike(around.state, (s: Session) => s.id == candidate.id, ofId);
    hide Find, IsFind, NoneHas;
  }

  lemma KnownIs(sessions: map<string, Session>, candidate: Session, around: Surroundings)
    ensures IsKnown(Existing(sessions, candidate, around), sessions, candidate, around)
  {
    forall s ensures SameRolloutSource(s, candidate, around) <==> FromOneSource(s, candidate, around) {
      SourcesAre(s, candidate, around);
    }
    hide SameRolloutSource, FromOneSource, Order.StringLess;
    if candidate.id !in sessions {
      var same := set k | k in sessions && SameRolloutSource(sessions[k], candidate, around);
      var found := Existing(sessions, candidate, around);
      if same == {} {
        assert forall id :: id in sessions ==> id !in same;
        assert found == None;
      } else {
        assert found == Some(Least(same)) && IsLeast(same, Least(same));
      }
    }
  }

  // ---- The merged session ----

  function FirstGiven(a: Option<string>, b: Option<string>, c: Option<string>): Option<string>
  {
    if a != None then a else if b != None then b else c
  }

  /** Its id and kind are those of the first, and each field the first value that one of them, in order, gives. */
  ghost predicate Combines(merged: Session, first: Session, second: Option<Session>, third: Option<Session>)
  {
    var b := if second.Some? then second.value else Session("", None, None, None, None, None, State);
    var c := if third.Some? then third.value else Session("", None, None, None, None, None, State);
    && merged.id == first.id && merged.kind == first.kind
    && merged.rolloutId == FirstGiven(first.rolloutId, b.rolloutId, c.rolloutId)
    && merged.sessionId == FirstGiven(first.sessionId, b.sessionId, c.sessionId)
    && merged.threadId == FirstGiven(first.threadId, b.threadId, c.threadId)
    && merged.rolloutPath == FirstGiven(first.rolloutPath, b.rolloutPath, c.rolloutPath)
    && merged.parentId == FirstGiven(first.parentId, b.parentId, c.parentId)
  }

  lemma MergingCombines(a: Session, b: Session, c: Option<Session>)
    ensures Combines(MergeSome(Merge(a, b), c), a, Some(b), c)
    ensures Combines(MergeSome(a, c), a, None, c)
    ensures Combines(Merge(a, b), a, Some(b), None)
  {
  }

  /**
   * A candidate of a new session is filled from the state database. Where its session is known, the first one stays
   * and is filled, except that a rollout session replaces one of the state database, and one of another source
   * replaces the one of its id.
   */
  lemma MergedIs(sessions: map<string, Session>, candidate: Session, around: Surroundings)
    returns (known: Option<string>, state: Option<Session>)
    ensures IsKnown(known, sessions, candidate, around) && IsStateSession(state, candidate, around)
    ensures var merged := Merged(sessions, candidate, around);
            if known.None? then Combines(merged, candidate, None, state)
            else
              && known.value in sessions
              && var was := sessions[known.value];
                 if !FromOneSource(was, candidate, around) then Combines(merged, candidate, Some(was), None)
                 else if was.kind == State && candidate.kind == Rollout then
                   Combines(merged, candidate, Some(was), state)
                 else Combines(merged, was, Some(candidate), state)
    ensures MergeRolloutSession(sessions, candidate, around) ==
            var merged := Merged(sessions, candidate, around);
            (sessions - if known.Some? then {known.value} else {}) + map[merged.id := merged]
  {
    hide Combines, IsKnown, IsStateSession, Existing, StateFor, Merge, MergeSome, SameRolloutSource, FromOneSource;
    known, state := Existing(sessions, candidate, around), StateFor(candidate, around);
    KnownIs(sessions, candidate, around);
    StateSessionIs(candidate, around);
    if known.Some? {
      var was := sessions[known.value];
      SourcesAre(was, candidate, around);
      MergingCombines(candidate, was, state);
      MergingCombines(was, candidate, state);
    } else {
      MergingCombines(candidate, candidate, state);
    }
  }

  // ---- The record as a whole ----

  /** The run is in a session of the state database, and metadata leads to another one. */
  predicate ReplacesFallback(p: Progress, id: string)
  {
    match p.current
    case Some(was) => was in p.sessions && p.sessions[was].kind == State && was != id
    case None => false
  }

  predicate IsRow(after: Row, before: Row, from: string, to: string)
  {
    && after.turn == before.turn && after.sequence == before.sequence
    && after.session == if before.session == Some(from) then Some(to) else before.session
  }

  ghost predicate AreRows(after: seq<Row>, before: seq<Row>, from: string, to: string)
  {
    |after| == |before| && forall k :: 0 <= k < |before| ==> IsRow(after[k], before[k], from, to)
  }

  /** Every row, turn and parent that names one session names the other; nothing else changes. */
  ghost predicate IsRekeyed(after: Data, before: Data, from: string, to: string)
  {
    && AreRows(after.records, before.records, from, to) && AreRows(after.messages, before.messages, from, to)
    && AreRows(after.calls, before.calls, from, to) && AreRows(after.results, before.results, from, to)
    && AreRows(after.snapshots, before.snapshots, from, to)
    && |after.usage| == |before.usage| && |after.turns| == |before.turns|
    && (forall k :: 0 <= k < |before.usage| ==>
          IsRow(after.usage[k].row, before.usage[k].row, from, to)
          && after.usage[k].counters == before.usage[k].counters)
    && forall k :: 0 <= k < |before.turns| ==>
         var session := if before.turns[k].session == Some(from) then Some(to) else before.turns[k].session;
         after.turns[k] == before.turns[k].(session := session)
  }

  ghost predicate HasParents(after: map<string, Session>, before: map<string, Session>, from: string, to: string)
  {
    && after.Keys == before.Keys
    && forall k :: k in before ==>
         var parent := if before[k].parentId == Some(from) then Some(to) else before[k].parentId;
         after[k] == before[k].(parentId := parent)
  }

  /**
   * Metadata makes its merged session current and ends the turn. Where that replaces a session of the state database,
   * what named it names the new one.
   */
  lemma MetaIs(p: Progress, candidate: Session, around: Surroundings)
    ensures var q := TakeSessionMeta(p, candidate, around);
            var sessions := MergeRolloutSession(p.sessions, candidate, around);
            var id := Merged(p.sessions, candidate, around).id;
            && q.current == Some(id) && q.turn == None
            && if ReplacesFallback(p, id) then
                 && IsRekeyed(q.data, p.data, p.current.value, id)
                 && HasParents(q.sessions, sessions, p.current.value, id)
               else q.data == p.data && q.sessions == sessions
  {
    hide MergeRolloutSession, Merged;
    var id := Merged(p.sessions, candidate, around).id;
    if ReplacesFallback(p, id) {
      DataIsRekeyed(p.data, p.current.value, id);
      ParentsAre(MergeRolloutSession(p.sessions, candidate, around), p.current.value, id);
      hide IsRekeyed, HasParents, RenamedData, RenamedParents;
    }
  }

  lemma RowsAre(rows: seq<Row>, from: string, to: string)
    ensures AreRows(RenamedRows(rows, from, to), rows, from, to)
  {
  }

  lemma DataIsRekeyed(data: Data, from: string, to: string)
    ensures IsRekeyed(RenamedData(data, from, to), data, from, to)
  {
    RowsAre(data.records, from, to);
    RowsAre(data.messages, from, to);
    RowsAre(data.calls, from, to);
    RowsAre(data.results, from, to);
    RowsAre(data.snapshots, from, to);
    hide AreRows, RenamedRows;
  }

  lemma ParentsAre(sessions: map<string, Session>, from: string, to: string)
    ensures HasParents(RenamedParents(sessions, from, to), sessions, from, to)
  {
  }
}
