/** Every session a row names is known, however the session's identity is learned. */
module SessionReferences {
  import opened Wrappers
  import opened Sessions

  // ---- The sessions rows name ----

  function NamedIn(rows: seq<Row>): set<string>
  {
    set i | 0 <= i < |rows| && rows[i].session.Some? :: rows[i].session.value
  }

  function NamedInTurns(turns: seq<Turn>): set<string>
  {
    set i | 0 <= i < |turns| && turns[i].session.Some? :: turns[i].session.value
  }

  function UsageRows(usage: seq<Usage>): (rows: seq<Row>)
    ensures |rows| == |usage| && forall i :: 0 <= i < |usage| ==> rows[i] == usage[i].row
  {
    seq(|usage|, i requires 0 <= i < |usage| => usage[i].row)
  }

  /** Every session named by any row or turn. */
  function Named(data: Data): set<string>
  {
    NamedInTurns(data.turns) + NamedIn(data.records) + NamedIn(data.messages) + NamedIn(data.calls)
    + NamedIn(data.results) + NamedIn(UsageRows(data.usage)) + NamedIn(data.snapshots)
  }

  ghost predicate TurnsAreUnique(turns: seq<Turn>)
  {
    forall i, j :: 0 <= i < j < |turns| ==> !(turns[i].id == turns[j].id && turns[i].session == turns[j].session)
  }

  ghost predicate Keyed(sessions: map<string, Session>)
  {
    forall k :: k in sessions ==> sessions[k].id == k
  }

  function AsNames(session: Option<string>): set<string>
  {
    if session.Some? then {session.value} else {}
  }

  /** A session known only from the state database is named by rows only while it is the current one. */
  ghost predicate Sound(p: Progress)
  {
    && Keyed(p.sessions) && TurnsAreUnique(p.data.turns)
    && (if p.current.Some? then p.current.value in p.sessions else Named(p.data) == {})
    && (forall id :: id in Named(p.data) ==> id in p.sessions)
    && (if IsStateFallback(p) then Named(p.data) <= AsNames(p.current)
        else forall id :: id in Named(p.data) ==> p.sessions[id].kind == Rollout)
  }

  // ---- Rows added and renamed ----

  lemma NamedSnoc(rows: seq<Row>, row: Row)
    ensures NamedIn(rows + [row]) == NamedIn(rows) + AsNames(row.session)
  {
    var more := rows + [row];
    assert forall i :: 0 <= i < |rows| ==> more[i] == rows[i];
    assert more[|rows|] == row;
    forall id ensures id in NamedIn(more) <==> id in NamedIn(rows) + AsNames(row.session) {
      if id in NamedIn(rows) {
        var i :| 0 <= i < |rows| && rows[i].session.Some? && rows[i].session.value == id;
        assert more[i].session.value == id;
      }
    }
  }

  lemma NamedRenamed(rows: seq<Row>, from: string, to: string)
    requires NamedIn(rows) <= {from}
    ensures NamedIn(RenamedRows(rows, from, to)) <= {to}
  {
    var renamed := RenamedRows(rows, from, to);
    forall id | id in NamedIn(renamed) ensures id == to {
      var i :| 0 <= i < |renamed| && renamed[i].session.Some? && renamed[i].session.value == id;
      assert rows[i].session.Some? ==> rows[i].session.value in NamedIn(rows);
    }
  }

  lemma TurnsRenamed(turns: seq<Turn>, from: string, to: string)
    requires NamedInTurns(turns) <= {from}
    ensures NamedInTurns(RenamedTurns(turns, from, to)) <= {to}
    ensures TurnsAreUnique(turns) ==> TurnsAreUnique(RenamedTurns(turns, from, to))
  {
    var renamed := RenamedTurns(turns, from, to);
    forall i | 0 <= i < |turns| ensures turns[i].session.None? || turns[i].session == Some(from) {
      assert turns[i].session.Some? ==> turns[i].session.value in NamedInTurns(turns);
    }
    forall id | id in NamedInTurns(renamed) ensures id == to {
      var i :| 0 <= i < |renamed| && renamed[i].session.Some? && renamed[i].session.value == id;
    }
  }

  lemma UsageRenamed(usage: seq<Usage>, from: string, to: string)
    ensures UsageRows(RenamedUsage(usage, from, to)) == RenamedRows(UsageRows(usage), from, to)
  {
  }

  lemma UsageSnoc(usage: seq<Usage>, u: Usage)
    ensures UsageRows(usage + [u]) == UsageRows(usage) + [u.row]
  {
  }

  lemma DataRenamed(data: Data, from: string, to: string)
    requires Named(data) <= {from}
    ensures Named(RenamedData(data, from, to)) <= {to}
    ensures TurnsAreUnique(data.turns) ==> TurnsAreUnique(RenamedData(data, from, to).turns)
  {
    hide NamedIn, NamedInTurns, RenamedRows, RenamedUsage, RenamedTurns, UsageRows, TurnsAreUnique;
    TurnsRenamed(data.turns, from, to);
    NamedRenamed(data.records, from, to);
    NamedRenamed(data.messages, from, to);
    NamedRenamed(data.calls, from, to);
    NamedRenamed(data.results, from, to);
    NamedRenamed(UsageRows(data.usage), from, to);
    UsageRenamed(data.usage, from, to);
    NamedRenamed(data.snapshots, from, to);
  }

  // ---- Turns ----

  ghost predicate Listed(turns: seq<Turn>, id: string, session: Option<string>)
  {
    exists i :: 0 <= i < |turns| && turns[i].id == id && turns[i].session == session
  }

  ghost predicate AllListed(turns: seq<Turn>, more: seq<Turn>)
  {
    forall id, session :: Listed(turns, id, session) ==> Listed(more, id, session)
  }

  lemma EnsuredKeepsTurns(turns: seq<Turn>, id: string, session: Option<string>, sequence: nat)
    requires TurnsAreUnique(turns)
    ensures var (more, i) := Ensured(turns, id, session, sequence);
            && TurnsAreUnique(more) && more[i].id == id && more[i].session == session
            && NamedInTurns(more) <= NamedInTurns(turns) + AsNames(session) && AllListed(turns, more)
  {
    var (more, at) := Ensured(turns, id, session, sequence);
    assert forall i :: 0 <= i < |turns| ==> more[i] == turns[i];
    forall s | s in NamedInTurns(more) ensures s in NamedInTurns(turns) + AsNames(session) {
      var i :| 0 <= i < |more| && more[i].session.Some? && more[i].session.value == s;
      if i < |turns| {
        assert turns[i].session.value == s;
      }
    }
  }

  /** Changing what is known about a turn, but not which turn it is. */
  lemma ChangedKeepsTurns(turns: seq<Turn>, i: nat, turn: Turn)
    requires i < |turns| && TurnsAreUnique(turns) && turn.id == turns[i].id && turn.session == turns[i].session
    ensures TurnsAreUnique(turns[i := turn]) && NamedInTurns(turns[i := turn]) == NamedInTurns(turns)
    ensures AllListed(turns, turns[i := turn]) && Listed(turns[i := turn], turn.id, turn.session)
  {
    var changed := turns[i := turn];
    assert forall k :: 0 <= k < |turns| ==> changed[k].session == turns[k].session && changed[k].id == turns[k].id;
    forall s ensures s in NamedInTurns(changed) <==> s in NamedInTurns(turns) {
      if s in NamedInTurns(changed) {
        var k :| 0 <= k < |changed| && changed[k].session.Some? && changed[k].session.value == s;
        assert turns[k].session.value == s;
      }
      if s in NamedInTurns(turns) {
        var k :| 0 <= k < |turns| && turns[k].session.Some? && turns[k].session.value == s;
        assert changed[k].session.value == s;
      }
    }
  }

  lemma UpdateKeepsTurns(turns: seq<Turn>, id: string, session: Option<string>, settings: Option<Settings>,
                         kind: string, timestamp: Option<string>, sequence: nat)
    requires TurnsAreUnique(turns)
    ensures var more := AddOrUpdateTurn(turns, id, session, settings, timestamp, sequence);
            && TurnsAreUnique(more) && NamedInTurns(more) <= NamedInTurns(turns) + AsNames(session)
            && AllListed(turns, more) && Listed(more, id, session)
    ensures var more := AddLifecycle(turns, id, session, kind, timestamp, sequence);
            && TurnsAreUnique(more) && NamedInTurns(more) <= NamedInTurns(turns) + AsNames(session)
            && AllListed(turns, more) && Listed(more, id, session)
  {
    hide TurnsAreUnique, NamedInTurns, Ensured, Listed;
    EnsuredKeepsTurns(turns, id, session, sequence);
    var (more, i) := Ensured(turns, id, session, sequence);
    ChangedKeepsTurns(more, i, Updated(more[i], settings, timestamp));
    ChangedKeepsTurns(more, i, Lived(more[i], kind, timestamp, sequence));
  }

  // ---- Session metadata ----

  /**
   * The session map after a candidate: only a state session can lose its id, and what comes in is a rollout session.
   */
  lemma MergeKeepsSessions(sessions: map<string, Session>, candidate: Session, around: Surroundings)
    requires Keyed(sessions) && candidate.kind == Rollout
    ensures var after, id := MergeRolloutSession(sessions, candidate, around), Merged(sessions, candidate, around).id;
            && Keyed(after) && id in after && after[id].kind == Rollout
            && (forall k :: k in sessions && sessions[k].kind == Rollout ==> k in after && after[k].kind == Rollout)
            && (forall k :: k in after && k != id ==> k in sessions && after[k] == sessions[k])
  {
    hide StateFor, Least, SameRolloutSource;
  }

  lemma ParentsKeepKeys(sessions: map<string, Session>, from: string, to: string)
    ensures var after := RenamedParents(sessions, from, to);
            && after.Keys == sessions.Keys && (Keyed(sessions) ==> Keyed(after))
            && forall k :: k in sessions ==> after[k].kind == sessions[k].kind
  {
  }

  lemma MetaKeepsSound(p: Progress, candidate: Session, around: Surroundings)
    requires Sound(p) && candidate.kind == Rollout
    ensures Sound(TakeSessionMeta(p, candidate, around)) && !IsStateFallback(TakeSessionMeta(p, candidate, around))
  {
    hide MergeRolloutSession, Merged, Named, RenamedData, RenamedParents, TurnsAreUnique;
    MergeKeepsSessions(p.sessions, candidate, around);
    var id := Merged(p.sessions, candidate, around).id;
    if IsStateFallback(p) && p.current.value != id {
      DataRenamed(p.data, p.current.value, id);
      ParentsKeepKeys(MergeRolloutSession(p.sessions, candidate, around), p.current.value, id);
    }
  }

  lemma MetaEndsTheTurn(p: Progress, candidate: Session, around: Surroundings)
    ensures TakeSessionMeta(p, candidate, around).turn == None
  {
  }

  // ---- Every other record ----

  /** The current turn is listed under the current session, or as a turn of no session. */
  ghost predicate TurnIsListed(p: Progress)
  {
    p.turn.Some? ==> Listed(p.data.turns, p.turn.value, p.current) || Listed(p.data.turns, p.turn.value, None)
  }

  /** More rows naming nothing but the current session. */
  ghost predicate Extends(p: Progress, q: Progress)
  {
    && q.sessions == p.sessions && q.current == p.current
    && (TurnsAreUnique(p.data.turns) ==> TurnsAreUnique(q.data.turns))
    && (TurnIsListed(p) ==> TurnIsListed(q))
    && Named(q.data) <= Named(p.data) + AsNames(p.current)
  }

  lemma ExtendedIsSound(p: Progress, q: Progress)
    requires Sound(p) && Extends(p, q)
    ensures Sound(q) && IsStateFallback(q) == IsStateFallback(p)
    ensures TurnIsListed(p) ==> TurnIsListed(q)
  {
    hide Named, TurnsAreUnique, TurnIsListed;
  }

  lemma ExtendsTwice(p: Progress, q: Progress, r: Progress)
    requires Extends(p, q) && Extends(q, r)
    ensures Extends(p, r)
  {
    hide Named, TurnsAreUnique, TurnIsListed;
  }

  lemma ItemExtends(p: Progress, item: Option<Item>, turn: Option<string>, sequence: nat)
    ensures Extends(p, p.(data := TakeItem(p.data, item, Row(p.current, turn, sequence))))
  {
    hide NamedIn, NamedInTurns, UsageRows, TurnsAreUnique, Listed;
    var row := Row(p.current, turn, sequence);
    NamedSnoc(p.data.messages, row);
    NamedSnoc(p.data.calls, row);
    NamedSnoc(p.data.results, row);
  }

  lemma OtherRowsExtend(p: Progress, turn: Option<string>, sequence: nat)
    ensures var row := Row(p.current, turn, sequence);
            && Extends(p, p.(data := p.data.(records := p.data.records + [row])))
            && Extends(p, p.(data := p.data.(snapshots := p.data.snapshots + [row])))
  {
    hide NamedIn, NamedInTurns, UsageRows, TurnsAreUnique, Listed;
    var row := Row(p.current, turn, sequence);
    NamedSnoc(p.data.records, row);
    NamedSnoc(p.data.snapshots, row);
  }

  lemma UsageExtends(p: Progress, turn: Option<string>, sequence: nat, counters: Counters)
    ensures Extends(p, p.(data := p.data.(usage := p.data.usage + [Usage(Row(p.current, turn, sequence), counters)])))
  {
    hide NamedIn, NamedInTurns, UsageRows, TurnsAreUnique, Listed;
    var row := Row(p.current, turn, sequence);
    NamedSnoc(UsageRows(p.data.usage), row);
    UsageSnoc(p.data.usage, Usage(row, counters));
  }

  lemma TurnsExtend(p: Progress, turns: seq<Turn>, turn: Option<string>)
    requires TurnsAreUnique(p.data.turns) && TurnsAreUnique(turns)
    requires NamedInTurns(turns) <= NamedInTurns(p.data.turns) + AsNames(p.current)
    requires AllListed(p.data.turns, turns)
    requires turn == p.turn || turn.None? || Listed(turns, turn.value, p.current)
    ensures Extends(p, p.(turn := turn, data := p.data.(turns := turns)))
  {
    hide NamedIn, NamedInTurns, TurnsAreUnique, Listed;
  }

  lemma NothingChangesNothing(p: Progress)
    ensures Extends(p, p) && AllListed(p.data.turns, p.data.turns)
  {
  }

  lemma TurnContextExtends(p: Progress, record: Record, sequence: nat)
    requires record.kind.TurnContext? && TurnsAreUnique(p.data.turns)
    ensures Extends(p, TakeTurnContext(p, record, sequence))
  {
    hide Named, NamedInTurns, TurnsAreUnique, AddOrUpdateTurn, Extends, Listed, AllListed;
    var q := TakeTurnContext(p, record, sequence);
    var turns := q.data.turns;
    NothingChangesNothing(p);
    if record.explicitTurn.Some? {
      UpdateKeepsTurns(p.data.turns, record.explicitTurn.value, p.current, record.kind.settings, "", record.timestamp,
          sequence);
    }
    var r := p.(turn := record.explicitTurn, data := p.data.(turns := turns));
    TurnsExtend(p, turns, record.explicitTurn);
    OtherRowsExtend(r, record.explicitTurn, sequence);
    ExtendsTwice(p, r, q);
  }

  lemma EventExtends(p: Progress, record: Record, sequence: nat)
    requires record.kind.EventMessage? && TurnsAreUnique(p.data.turns)
    ensures Extends(p, TakeEvent(p, record, sequence))
  {
    hide Named, NamedInTurns, TurnsAreUnique, AddLifecycle, Extends, TakeItem, Listed, AllListed;
    var turn := Fill(record.explicitTurn, p.turn);
    var lifecycle := record.kind.lifecycle;
    var q := p;
    NothingChangesNothing(p);
    if lifecycle.Some? && turn.Some? {
      var turns := AddLifecycle(p.data.turns, turn.value, p.current, lifecycle.value, record.timestamp, sequence);
      UpdateKeepsTurns(p.data.turns, turn.value, p.current, None, lifecycle.value, record.timestamp, sequence);
      var next := if lifecycle.value == "turn_started" then turn else p.turn;
      TurnsExtend(p, turns, next);
      q := p.(turn := next, data := p.data.(turns := turns));
    }
    assert Extends(p, q) && q.current == p.current;
    var item := if record.kind.item == Some(Message) then None else record.kind.item;
    ItemExtends(q, item, turn, sequence);
    var r := q.(data := TakeItem(q.data, item, Row(p.current, turn, sequence)));
    ExtendsTwice(p, q, r);
    if record.kind.tokenCount.Some? {
      UsageExtends(r, turn, sequence, record.kind.tokenCount.value);
      ExtendsTwice(p, r, TakeEvent(p, record, sequence));
    }
  }

  /** Candidates decoded from log lines are rollout sessions. */
  predicate FromLog(record: Record)
  {
    record.kind.SessionMeta? && record.kind.candidate.Some? ==> record.kind.candidate.value.kind == Rollout
  }

  predicate BringsSession(record: Record)
  {
    record.kind.SessionMeta? && record.kind.candidate.Some?
  }

  lemma TakeKeepsSound(p: Progress, record: Record, sequence: nat, around: Surroundings)
    requires Sound(p) && FromLog(record)
    ensures Sound(Take(p, record, sequence, around))
    ensures TurnIsListed(p) ==> TurnIsListed(Take(p, record, sequence, around))
    ensures IsStateFallback(Take(p, record, sequence, around)) == (IsStateFallback(p) && !BringsSession(record))
  {
    hide Named, NamedInTurns, Extends, TakeItem, TakeEvent, TakeTurnContext, TakeSessionMeta, IsStateFallback, Listed;
    var q := p;
    match record.kind {
      case SessionMeta(candidate) =>
        if candidate.Some? {
          MetaKeepsSound(p, candidate.value, around);
          MetaEndsTheTurn(p, candidate.value, around);
          q := TakeSessionMeta(p, candidate.value, around);
        }
      case TurnContext(_) =>
        TurnContextExtends(p, record, sequence);
        q := TakeTurnContext(p, record, sequence);
        ExtendedIsSound(p, q);
      case ResponseItem(item) =>
        ItemExtends(p, item, Fill(record.explicitTurn, p.turn), sequence);
        q := p.(data := TakeItem(p.data, item, Row(p.current, Fill(record.explicitTurn, p.turn), sequence)));
        ExtendedIsSound(p, q);
      case EventMessage(_, _, _) =>
        EventExtends(p, record, sequence);
        q := TakeEvent(p, record, sequence);
        ExtendedIsSound(p, q);
      case Other =>
    }
    var turn := if record.kind.TurnContext? then record.explicitTurn else Fill(record.explicitTurn, p.turn);
    OtherRowsExtend(q, turn, sequence);
    ExtendedIsSound(q, q.(data := q.data.(records := q.data.records + [Row(q.current, turn, sequence)])));
  }

  // ---- Whole runs ----

  /** A carried turn belongs to the session the run starts in, or to none. */
  ghost predicate ContextFits(path: Option<string>, context: Context, around: Surroundings)
  {
    context.turn.Some? && context.turn.value.session.Some? ==>
      context.turn.value.session == Start(path, context, around).current
  }

  lemma StartIsSound(path: Option<string>, context: Context, around: Surroundings)
    requires ContextFits(path, context, around)
    ensures Sound(Start(path, context, around)) && TurnIsListed(Start(path, context, around))
  {
    StartNamesTheTurn(path, context, around);
    StartListsTheTurn(path, context, around);
    hide Named, Listed;
  }

  lemma StartNamesTheTurn(path: Option<string>, context: Context, around: Surroundings)
    ensures Named(Start(path, context, around).data) ==
            if context.turn.Some? then AsNames(context.turn.value.session) else {}
  {
    var turns := Start(path, context, around).data.turns;
    if context.turn.Some? {
      assert turns == [context.turn.value];
      assert context.turn.value.session.Some? ==> turns[0].session.value in NamedInTurns(turns);
    }
  }

  lemma StartListsTheTurn(path: Option<string>, context: Context, around: Surroundings)
    ensures context.turn.Some? ==>
              Listed(Start(path, context, around).data.turns, context.turn.value.id, context.turn.value.session)
  {
    if context.turn.Some? {
      assert Start(path, context, around).data.turns[0] == context.turn.value;
    }
  }

  lemma {:induction false} RunIsSound(start: Progress, records: seq<Record>, n: nat, base: nat, around: Surroundings)
    requires n <= |records| && Sound(start) && TurnIsListed(start)
    requires forall i :: 0 <= i < |records| ==> FromLog(records[i])
    ensures var p := RunFirst(start, records, n, base, around);
            && Sound(p) && TurnIsListed(p)
            && ((exists i :: 0 <= i < n && BringsSession(records[i])) ==> !IsStateFallback(p))
  {
    hide Sound, IsStateFallback, Take, BringsSession, FromLog, TurnIsListed;
    if n > 0 {
      RunIsSound(start, records, n - 1, base, around);
      TakeKeepsSound(RunFirst(start, records, n - 1, base, around), records[n - 1], base + n, around);
    }
  }

  lemma FinishedIsSound(p: Progress)
    requires Sound(p)
    ensures Sound(Finished(p)) && IsStateFallback(Finished(p)) == IsStateFallback(p)
    ensures TurnIsListed(p) ==> TurnIsListed(Finished(p))
  {
    FinishedNamesNoMore(p.data.usage);
    hide NamedIn, NamedInTurns, UsageRows, TurnsAreUnique, Listed, Deduplicated;
  }

  lemma {:induction false} FinishedNamesNoMore(usage: seq<Usage>)
    ensures NamedIn(UsageRows(Deduplicated(usage))) <= NamedIn(UsageRows(usage))
  {
    hide NamedIn, UsageRows, KeysOf;
    if usage != [] {
      var init, last := usage[..|usage| - 1], usage[|usage| - 1];
      FinishedNamesNoMore(init);
      NamedSnoc(UsageRows(init), last.row);
      NamedSnoc(UsageRows(Deduplicated(init)), last.row);
      UsageSnoc(init, last);
      UsageSnoc(Deduplicated(init), last);
      assert usage == init + [last] && Deduplicated(init) + [] == Deduplicated(init);
    }
  }

  /**
   * Whatever the log brings and whatever the state database guessed: every session named by any emitted row or turn
   * is in the final map under its own id, no turn is listed twice, and once the log has named a session of its own,
   * nothing refers to the guess any more.
   */
  lemma EveryNamedSessionIsKnown(
      path: Option<string>, records: seq<Record>, context: Context, base: nat, around: Surroundings)
    requires ContextFits(path, context, around) && forall i :: 0 <= i < |records| ==> FromLog(records[i])
    ensures var p := Run(path, records, context, base, around);
            && (forall id :: id in Named(p.data) ==> id in p.sessions && p.sessions[id].id == id)
            && TurnsAreUnique(p.data.turns)
            && ((exists i :: 0 <= i < |records| && BringsSession(records[i])) ==>
                  forall id :: id in Named(p.data) ==> p.sessions[id].kind == Rollout)
  {
    hide Named, TurnsAreUnique, RunFirst, Start, BringsSession, FromLog, ContextFits, TurnIsListed, Finished;
    StartIsSound(path, context, around);
    RunIsSound(Start(path, context, around), records, |records|, base, around);
    FinishedIsSound(RunFirst(Start(path, context, around), records, |records|, base, around));
  }

  // ---- What runs hand over ----

  ghost predicate AllKnown(p: Progress)
  {
    forall id :: id in Named(p.data) ==> id in p.sessions
  }

  ghost predicate AlwaysKnown(path: Option<string>, context: Context, around: Surroundings)
  {
    forall records, base :: (forall i :: 0 <= i < |records| ==> FromLog(records[i])) ==>
      AllKnown(Run(path, records, context, base, around))
  }

  /** From a context, named sessions are known in every run if and only if the carried turn fits the session. */
  lemma KnownFromContextIff(path: Option<string>, context: Context, around: Surroundings)
    ensures AlwaysKnown(path, context, around) <==> ContextFits(path, context, around)
  {
    hide Named;
    if ContextFits(path, context, around) {
      forall records: seq<Record>, base: nat | forall i :: 0 <= i < |records| ==> FromLog(records[i])
        ensures AllKnown(Run(path, records, context, base, around))
      {
        EveryNamedSessionIsKnown(path, records, context, base, around);
      }
    } else {
      StartNamesTheTurn(path, context, around);
      var start := Start(path, context, around);
      assert Run(path, [], context, 0, around) == start;
      assert context.turn.value.session.value in Named(start.data);
      assert !AllKnown(Run(path, [], context, 0, around));
    }
  }

  /** The first turn listed under the current turn's id is one of another session. */
  ghost predicate TurnIdIsTaken(p: Progress)
  {
    p.turn.Some? && exists i :: TakenAt(p, p.turn.value, i)
  }

  ghost predicate TakenAt(p: Progress, id: string, i: int)
  {
    && 0 <= i < |p.data.turns| && p.data.turns[i].id == id
    && p.data.turns[i].session.Some? && p.data.turns[i].session != p.current
    && forall k :: 0 <= k < i ==> p.data.turns[k].id != id
  }

  lemma {:induction false} FindIsFirst<T>(items: seq<T>, p: T -> bool)
    ensures Find(items, p).Some? ==>
              exists i :: 0 <= i < |items| && items[i] == Find(items, p).value
                          && forall k :: 0 <= k < i ==> !p(items[k])
  {
    if items != [] && !p(items[0]) {
      FindIsFirst(items[1..], p);
      if Find(items, p).Some? {
        var rest := items[1..];
        var i :| 0 <= i < |rest| && rest[i] == Find(rest, p).value && forall k :: 0 <= k < i ==> !p(rest[k]);
        assert items[i + 1] == rest[i] && forall k :: 1 <= k < i + 1 ==> items[k] == rest[k - 1];
      }
    }
  }

  /**
   * A run hands over a fitting context exactly when its current turn's id was not used by another session before:
   * the turn itself is always listed, but the lookup takes the first one of that id.
   */
  lemma HandOverFitsIff(p: Progress, path: Option<string>, around: Surroundings)
    requires Sound(p) && TurnIsListed(p)
    ensures ContextFits(path, HandOver(p), around) <==> !TurnIdIsTaken(p)
  {
    hide Sound, Start, TurnIsListed, TakenAt, Find;
    if p.turn.Some? {
      var found := FoundTurn(p);
      HandOverStartsThere(p, path, around, p.data.turns[found]);
      OnlyFirst(p, p.turn.value, found);
    }
  }

  /** Where the turn handed over is listed. */
  lemma FoundTurn(p: Progress) returns (i: int)
    requires p.turn.Some? && TurnIsListed(p)
    ensures 0 <= i < |p.data.turns| && HandOver(p).turn == Some(p.data.turns[i]) && p.data.turns[i].id == p.turn.value
    ensures forall k :: 0 <= k < i ==> p.data.turns[k].id != p.turn.value
  {
    hide Find;
    var find := (t: Turn) => t.id == p.turn.value;
    ListedIsFound(p.data.turns, p.turn.value, find);
    FindIsFirst(p.data.turns, find);
    i :| 0 <= i < |p.data.turns| && p.data.turns[i] == Find(p.data.turns, find).value
         && forall k :: 0 <= k < i ==> !find(p.data.turns[k]);
  }

  lemma OnlyFirst(p: Progress, id: string, i: int)
    requires 0 <= i < |p.data.turns| && p.data.turns[i].id == id && forall k :: 0 <= k < i ==> p.data.turns[k].id != id
    ensures (exists k :: TakenAt(p, id, k)) <==> p.data.turns[i].session.Some? && p.data.turns[i].session != p.current
  {
    forall k | TakenAt(p, id, k) ensures k == i {
    }
    assert p.data.turns[i].session.Some? && p.data.turns[i].session != p.current ==> TakenAt(p, id, i);
  }

  lemma ListedIsFound(turns: seq<Turn>, id: string, find: Turn -> bool)
    requires find == ((t: Turn) => t.id == id)
    requires exists session :: Listed(turns, id, session)
    ensures Find(turns, find).Some?
  {
    var session :| Listed(turns, id, session);
    var i :| 0 <= i < |turns| && turns[i].id == id && turns[i].session == session;
    assert turns[i] in turns && find(turns[i]);
  }

  /** A turn of some session implies a current session, which the next run starts in. */
  lemma HandOverStartsThere(p: Progress, path: Option<string>, around: Surroundings, turn: Turn)
    requires Sound(p) && turn in p.data.turns
    ensures turn.session.Some? ==> p.current.Some? && Start(path, HandOver(p), around).current == p.current
  {
    hide Find, TurnsAreUnique;
    var i :| 0 <= i < |p.data.turns| && p.data.turns[i] == turn;
    assert turn.session.Some? ==> turn.session.value in NamedInTurns(p.data.turns);
  }

  /**
   * Polls: after a run from a fitting context, the next run, whatever it reads, names only known sessions
   * if and only if the first run's current turn id was not used by another session before.
   */
  lemma NextRunIsKnownIff(
      path: Option<string>, records: seq<Record>, context: Context, base: nat, around: Surroundings)
    requires ContextFits(path, context, around) && forall i :: 0 <= i < |records| ==> FromLog(records[i])
    ensures var p := Run(path, records, context, base, around);
            AlwaysKnown(path, HandOver(p), around) <==> !TurnIdIsTaken(p)
  {
    hide Named, TurnsAreUnique, RunFirst, Start, FromLog, ContextFits, TurnIsListed, Finished, Sound, HandOver,
         AlwaysKnown, TurnIdIsTaken;
    StartIsSound(path, context, around);
    RunIsSound(Start(path, context, around), records, |records|, base, around);
    FinishedIsSound(RunFirst(Start(path, context, around), records, |records|, base, around));
    var p := Run(path, records, context, base, around);
    HandOverFitsIff(p, path, around);
    KnownFromContextIff(path, HandOver(p), around);
  }

  /** A session unrelated to those known is added as it is. */
  lemma UnrelatedSession(p: Progress, session: Session, around: Surroundings)
    requires around.state == [] && session.id !in p.sessions && session.kind == Rollout && session.rolloutId.None?
    requires forall k :: k in p.sessions ==> p.sessions[k].kind == Rollout && p.sessions[k].rolloutId.None?
    ensures TakeSessionMeta(p, session, around) ==
        Progress(p.data, p.sessions[session.id := session], Some(session.id), None)
  {
    hide Least;
  }

  function Started(turn: string): Record
  {
    Record(Some(turn), None, EventMessage(Some("turn_started"), None, None))
  }

  lemma StartedIsListed(p: Progress, turn: string, sequence: nat, around: Surroundings)
    ensures var q := Take(p, Started(turn), sequence, around);
            && q.sessions == p.sessions && q.current == p.current && q.turn == Some(turn)
            && q.data.turns == AddLifecycle(p.data.turns, turn, p.current, "turn_started", None, sequence)
  {
    hide AddLifecycle;
  }

  function TwoSessions(a: Session, b: Session): seq<Record>
  {
    [Record(None, None, SessionMeta(Some(a))), Started("t"), Record(None, None, SessionMeta(Some(b))), Started("t")]
  }

  lemma TurnOfBothSessions(a: Session, b: Session, around: Surroundings)
    requires a.kind == Rollout && b.kind == Rollout && a.id != b.id && a.rolloutId.None? && b.rolloutId.None?
    requires around.state == []
    ensures var p := RunFirst(Start(None, Context(None, None), around), TwoSessions(a, b), 4, 0, around);
            && p.sessions == map[a.id := a, b.id := b] && p.current == Some(b.id) && p.turn == Some("t")
            && |p.data.turns| == 2 && p.data.turns[0].id == "t" && p.data.turns[0].session == Some(a.id)
  {
    var records, start := TwoSessions(a, b), Start(None, Context(None, None), around);
    FourSteps(start, records, around);
    UnrelatedSession(start, a, around);
    hide RunFirst, MergeRolloutSession, Merged, TakeEvent, TakeSessionMeta, Find, TakeItem, TakeTurnContext;
    var p1 := Take(start, records[0], 1, around);
    assert p1.sessions == map[a.id := a] && p1.current == Some(a.id) && p1.data.turns == [];
    StartedIsListed(p1, "t", 2, around);
    var p2 := Take(p1, records[1], 2, around);
    assert |p2.data.turns| == 1 && p2.data.turns[0].id == "t" && p2.data.turns[0].session == Some(a.id);
    UnrelatedSession(p2, b, around);
    var p3 := Take(p2, records[2], 3, around);
    assert p3.sessions == map[a.id := a, b.id := b] && p3.current == Some(b.id) && p3.data.turns == p2.data.turns;
    StartedIsListed(p3, "t", 4, around);
  }

  /**
   * Two sessions in one log that both start a turn `t`, with no poll in between: the first one's turn is handed over.
   */
  lemma ReusedTurnIdIsHandedOver(a: Session, b: Session)
    requires a.kind == Rollout && b.kind == Rollout && a.id != b.id && a.rolloutId.None? && b.rolloutId.None?
    ensures var around := Surroundings([], (x, y) => x == y);
            var p := Run(None, TwoSessions(a, b), Context(None, None), 0, around);
            && HandOver(p).session == Some(b) && HandOver(p).turn.Some? && HandOver(p).turn.value.session == Some(a.id)
            && !AlwaysKnown(None, HandOver(p), around)
  {
    hide RunFirst, AlwaysKnown;
    var around := Surroundings([], (x, y) => x == y);
    TurnOfBothSessions(a, b, around);
    KnownFromContextIff(None, HandOver(Run(None, TwoSessions(a, b), Context(None, None), 0, around)), around);
  }

  lemma FourSteps(start: Progress, records: seq<Record>, around: Surroundings)
    requires |records| == 4
    ensures RunFirst(start, records, 4, 0, around) ==
            Take(Take(Take(Take(start, records[0], 1, around), records[1], 2, around), records[2], 3, around),
                 records[3], 4, around)
  {
    hide Take;
    assert RunFirst(start, records, 1, 0, around) == Take(start, records[0], 1, around);
    assert RunFirst(start, records, 2, 0, around) == Take(Take(start, records[0], 1, around), records[1], 2, around);
  }

  /** After a restart the context from the store fits unless it rests on a state session that is no longer the log's. */
  lemma StoredContextFitsIff(path: Option<string>, last: Row, own: map<string, Session>, turns: seq<Turn>,
                             around: Surroundings)
    requires Keyed(own)
    ensures var context := StoredContext(last, own, turns);
            ContextFits(path, context, around) <==>
            || context.turn.None? || last.session.None? || last.session.value in own
            || Start(path, context, around).current == last.session
  {
  }

  // ---- Rows and records ----

  datatype List = AllRecords | Messages | Calls | Results | Usages | Snapshots

  function RowsOf(data: Data, list: List): seq<Row>
  {
    match list
    case AllRecords => data.records
    case Messages => data.messages
    case Calls => data.calls
    case Results => data.results
    case Usages => UsageRows(data.usage)
    case Snapshots => data.snapshots
  }

  /** The lists on which a record is to appear. */
  predicate BelongsOn(record: Record, list: List)
  {
    match list
    case AllRecords => true
    case Messages => record.kind == ResponseItem(Some(Message))
    case Calls => record.kind == ResponseItem(Some(Call))
        || (record.kind.EventMessage? && record.kind.item == Some(Call))
    case Results => record.kind == ResponseItem(Some(Result))
        || (record.kind.EventMessage? && record.kind.item == Some(Result))
    case Usages => record.kind.EventMessage? && record.kind.tokenCount.Some?
    case Snapshots => record.kind.TurnContext?
  }

  function Sequences(rows: seq<Row>): (s: seq<nat>)
    ensures |s| == |rows| && forall i :: 0 <= i < |rows| ==> s[i] == rows[i].sequence
  {
    seq(|rows|, i requires 0 <= i < |rows| => rows[i].sequence)
  }

  /** The sequence numbers of the records that belong on a list, in order. */
  function Expected(records: seq<Record>, n: nat, base: nat, list: List): seq<nat>
    requires n <= |records|
  {
    if n == 0 then []
    else Expected(records, n - 1, base, list) + if BelongsOn(records[n - 1], list) then [base + n] else []
  }

  lemma SequencesSnoc(rows: seq<Row>, row: Row)
    ensures Sequences(rows + [row]) == Sequences(rows) + [row.sequence] && Sequences(rows) + [] == Sequences(rows)
  {
  }

  lemma SequencesRenamed(data: Data, from: string, to: string, list: List)
    ensures Sequences(RowsOf(RenamedData(data, from, to), list)) == Sequences(RowsOf(data, list))
  {
  }

  lemma MetaKeepsRows(p: Progress, candidate: Session, around: Surroundings, list: List)
    ensures Sequences(RowsOf(TakeSessionMeta(p, candidate, around).data, list)) == Sequences(RowsOf(p.data, list))
  {
    hide MergeRolloutSession, Merged, RenamedData, RenamedParents, Sequences, RowsOf;
    if p.current.Some? {
      SequencesRenamed(p.data, p.current.value, Merged(p.sessions, candidate, around).id, list);
    }
  }

  lemma EventAddsOneRow(p: Progress, record: Record, sequence: nat, list: List)
    requires record.kind.EventMessage?
    ensures var rows := RowsOf(p.data, list);
            RowsOf(TakeEvent(p, record, sequence).data, list) ==
            rows + if list == AllRecords || !BelongsOn(record, list) then []
                   else [Row(p.current, Fill(record.explicitTurn, p.turn), sequence)]
  {
    hide AddLifecycle;
    assert RowsOf(p.data, list) + [] == RowsOf(p.data, list);
  }

  lemma TakeAddsOneRow(p: Progress, record: Record, sequence: nat, around: Surroundings, list: List)
    ensures Sequences(RowsOf(Take(p, record, sequence, around).data, list)) ==
            Sequences(RowsOf(p.data, list)) + if BelongsOn(record, list) then [sequence] else []
  {
    hide TakeSessionMeta, TakeEvent, AddOrUpdateTurn, Sequences;
    var rows := RowsOf(p.data, list);
    var turn := if record.kind.TurnContext? then record.explicitTurn else Fill(record.explicitTurn, p.turn);
    SequencesSnoc(rows, Row(p.current, turn, sequence));
    if BringsSession(record) {
      var q := TakeSessionMeta(p, record.kind.candidate.value, around);
      MetaKeepsRows(p, record.kind.candidate.value, around, list);
      SequencesSnoc(RowsOf(q.data, list), Row(q.current, turn, sequence));
    } else if record.kind.EventMessage? {
      EventAddsOneRow(p, record, sequence, list);
      assert rows + [] == rows;
      EventKeepsCurrent(p, record, sequence);
    }
  }

  lemma EventKeepsCurrent(p: Progress, record: Record, sequence: nat)
    requires record.kind.EventMessage?
    ensures TakeEvent(p, record, sequence).current == p.current
  {
  }

  lemma {:induction false} RunFirstKeepsRows(start: Progress, records: seq<Record>, n: nat, base: nat,
                                             around: Surroundings, list: List)
    requires n <= |records| && RowsOf(start.data, list) == []
    ensures Sequences(RowsOf(RunFirst(start, records, n, base, around).data, list)) == Expected(records, n, base, list)
  {
    hide Take, RowsOf, BelongsOn;
    if n > 0 {
      RunFirstKeepsRows(start, records, n - 1, base, around, list);
      TakeAddsOneRow(RunFirst(start, records, n - 1, base, around), records[n - 1], base + n, around, list);
    }
  }

  /**
   * Rekeying and all: each list but that of usage rows holds one row for every record that belongs on it, and no other.
   */
  lemma EveryRecordGetsItsRows(
      path: Option<string>, records: seq<Record>, context: Context, base: nat, around: Surroundings, list: List)
    requires list != Usages
    ensures Sequences(RowsOf(Run(path, records, context, base, around).data, list)) ==
        Expected(records, |records|, base, list)
  {
    hide RunFirst, Sequences, Expected, Deduplicated;
    RunFirstKeepsRows(Start(path, context, around), records, |records|, base, around, list);
  }
}
