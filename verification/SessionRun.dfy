/** The normalisation loop as it changes its rows, session map and current ids, proved against Sessions.Run. */
module SessionRun {
  import opened Wrappers
  import opened Sessions

  method RenameRows(rows: seq<Row>, from: string, to: string) returns (renamed: seq<Row>)
    ensures renamed == RenamedRows(rows, from, to)
  {
    renamed := rows;
    for i := 0 to |rows|
      invariant |renamed| == |rows| && renamed[i..] == rows[i..]
      invariant forall k :: 0 <= k < i ==> renamed[k] == rows[k].(session := Renamed(rows[k].session, from, to))
    {
      assert renamed[i] == renamed[i..][0] == rows[i..][0] == rows[i];
      if renamed[i].session == Some(from) {
        renamed := renamed[i := renamed[i].(session := Some(to))];
      }
    }
  }

  method RenameUsage(usage: seq<Usage>, from: string, to: string) returns (renamed: seq<Usage>)
    ensures renamed == RenamedUsage(usage, from, to)
  {
    renamed := usage;
    for i := 0 to |usage|
      invariant |renamed| == |usage| && renamed[i..] == usage[i..]
      invariant forall k :: 0 <= k < i ==>
                  renamed[k] == usage[k].(row := usage[k].row.(session := Renamed(usage[k].row.session, from, to)))
    {
      assert renamed[i] == renamed[i..][0] == usage[i..][0] == usage[i];
      if renamed[i].row.session == Some(from) {
        renamed := renamed[i := renamed[i].(row := renamed[i].row.(session := Some(to)))];
      }
    }
  }

  method RenameTurns(turns: seq<Turn>, from: string, to: string) returns (renamed: seq<Turn>)
    ensures renamed == RenamedTurns(turns, from, to)
  {
    renamed := turns;
    for i := 0 to |turns|
      invariant |renamed| == |turns| && renamed[i..] == turns[i..]
      invariant forall k :: 0 <= k < i ==> renamed[k] == turns[k].(session := Renamed(turns[k].session, from, to))
    {
      assert renamed[i] == renamed[i..][0] == turns[i..][0] == turns[i];
      if renamed[i].session == Some(from) {
        renamed := renamed[i := renamed[i].(session := Some(to))];
      }
    }
  }

  method RenameParents(sessions: map<string, Session>, from: string, to: string) returns (renamed: map<string, Session>)
    ensures renamed == RenamedParents(sessions, from, to)
  {
    renamed := sessions;
    var keys := sessions.Keys;
    while keys != {}
      invariant keys <= sessions.Keys == renamed.Keys
      invariant forall k :: k in sessions ==>
                  renamed[k] == if k in keys then sessions[k]
                      else sessions[k].(parentId := Renamed(sessions[k].parentId, from, to))
      decreases |keys|
    {
      var k :| k in keys;
      if renamed[k].parentId == Some(from) {
        renamed := renamed[k := renamed[k].(parentId := Some(to))];
      }
      keys := keys - {k};
    }
  }

  method FindTurn(turns: seq<Turn>, id: string, session: Option<string>) returns (at: Option<nat>)
    ensures at == TurnPosition(turns, id, session)
  {
    for i := 0 to |turns|
      invariant forall k :: 0 <= k < i ==> !(turns[k].id == id && turns[k].session == session)
    {
      if turns[i].id == id && turns[i].session == session {
        return Some(i);
      }
    }
    return None;
  }

  class Normalizer {
    var data: Data
    var sessions: map<string, Session>
    var current: Option<string>
    var turn: Option<string>

    function State(): Progress
      reads this
    {
      Progress(data, sessions, current, turn)
    }

    constructor (path: Option<string>, context: Context, around: Surroundings)
      ensures State() == Start(path, context, around)
    {
      data, sessions, current, turn := NO_DATA, map[], None, None;
      new;
      if context.turn.Some? {
        data := data.(turns := data.turns + [context.turn.value]);
        turn := Some(context.turn.value.id);
        assert NO_DATA.turns + [context.turn.value] == [context.turn.value];
      }
      if context.session.Some? {
        sessions := sessions[context.session.value.id := context.session.value];
        current := Some(context.session.value.id);
      } else {
        var matched := Find(around.state, (s: Session) => PathMatches(s.rolloutPath, path, around));
        if matched.Some? {
          current := Some(matched.value.id);
          var first := Find(around.state, (s: Session) => s.id == matched.value.id);
          if first.Some? {
            sessions := sessions[first.value.id := first.value];
          }
        }
      }
    }

    /** The known session is taken out of the map, merged with the candidate, and put back under the id it then has. */
    method MergeRolloutSession(candidate: Session, around: Surroundings) returns (id: string)
      modifies this`sessions
      ensures sessions == Sessions.MergeRolloutSession(old(sessions), candidate, around)
      ensures id == Merged(old(sessions), candidate, around).id
    {
      hide StateFor, Existing, SameRolloutSource;
      var fromState := StateFor(candidate, around);
      var known := Existing(sessions, candidate, around);
      var merged := candidate;
      if known.Some? {
        var existing := sessions[known.value];
        sessions := sessions - {known.value};
        if !SameRolloutSource(existing, candidate, around) {
          merged := Merge(merged, existing);
        } else if existing.kind == SourceKind.State && candidate.kind == Rollout {
          merged := MergeSome(Merge(merged, existing), fromState);
        } else {
          merged := MergeSome(Merge(existing, candidate), fromState);
        }
      } else {
        merged := MergeSome(merged, fromState);
      }
      id := merged.id;
      sessions := sessions[id := merged];
    }

    method RekeySessionReferences(from: string, to: string)
      requires from != to
      modifies this`data, this`sessions
      ensures data == RenamedData(old(data), from, to) && sessions == RenamedParents(old(sessions), from, to)
    {
      sessions := RenameParents(sessions, from, to);
      var turns := RenameTurns(data.turns, from, to);
      data := data.(turns := turns);
      var records := RenameRows(data.records, from, to);
      data := data.(records := records);
      var messages := RenameRows(data.messages, from, to);
      data := data.(messages := messages);
      var calls := RenameRows(data.calls, from, to);
      data := data.(calls := calls);
      var results := RenameRows(data.results, from, to);
      data := data.(results := results);
      var usage := RenameUsage(data.usage, from, to);
      data := data.(usage := usage);
      var snapshots := RenameRows(data.snapshots, from, to);
      data := data.(snapshots := snapshots);
    }

    /** Where the turn is, after adding it when it was not there. */
    method EnsureTurn(id: string, session: Option<string>, sequence: nat) returns (at: nat)
      modifies this`data
      ensures data == old(data).(turns := Ensured(old(data).turns, id, session, sequence).0)
      ensures at == Ensured(old(data).turns, id, session, sequence).1 && at < |data.turns|
    {
      var found := FindTurn(data.turns, id, session);
      if found.Some? {
        at := found.value;
      } else {
        at := |data.turns|;
        data := data.(turns := data.turns + [Turn(id, session, None, None, Settings(None, None, None), sequence, [])]);
      }
    }

    method UpdateTurn(id: string, session: Option<string>, settings: Option<Settings>, timestamp: Option<string>,
                      sequence: nat)
      modifies this`data
      ensures data == old(data).(turns := AddOrUpdateTurn(old(data).turns, id, session, settings, timestamp, sequence))
    {
      hide Ensured;
      var at := EnsureTurn(id, session, sequence);
      var turn := data.turns[at];
      if settings.Some? {
        var known := turn.settings;
        known := known.(cwd := Fill(known.cwd, settings.value.cwd));
        known := known.(model := Fill(known.model, settings.value.model));
        known := known.(reasoningEffort := Fill(known.reasoningEffort, settings.value.reasoningEffort));
        turn := turn.(settings := known);
      }
      turn := turn.(startedAt := Fill(turn.startedAt, timestamp));
      data := data.(turns := data.turns[at := turn]);
    }

    method RecordLifecycle(id: string, session: Option<string>, kind: string, timestamp: Option<string>, sequence: nat)
      modifies this`data
      ensures data == old(data).(turns := AddLifecycle(old(data).turns, id, session, kind, timestamp, sequence))
    {
      hide Ensured;
      var at := EnsureTurn(id, session, sequence);
      var lived := data.turns[at];
      if kind == "turn_complete" || kind == "turn_aborted" {
        lived := lived.(completedAt := timestamp);
      }
      if kind == "turn_started" {
        lived := lived.(startedAt := timestamp);
      }
      lived := lived.(lifecycle := lived.lifecycle + [Lifecycle(kind, timestamp, sequence)]);
      data := data.(turns := data.turns[at := lived]);
    }

    method TakeMeta(candidate: Session, around: Surroundings)
      modifies this
      ensures State() == TakeSessionMeta(old(State()), candidate, around)
    {
      hide Sessions.MergeRolloutSession, Merged, RenamedData, RenamedParents;
      var previous := current;
      var wasFallback := previous.Some? && previous.value in sessions
          && sessions[previous.value].kind == SourceKind.State;
      var id := MergeRolloutSession(candidate, around);
      if wasFallback && previous.value != id {
        RekeySessionReferences(previous.value, id);
      }
      current := Some(id);
      turn := None;
    }

    method TakeContext(record: Record, sequence: nat)
      requires record.kind.TurnContext?
      modifies this`data, this`turn
      ensures State() == TakeTurnContext(old(State()), record, sequence)
    {
      hide AddOrUpdateTurn;
      turn := record.explicitTurn;
      if turn.Some? {
        UpdateTurn(turn.value, current, record.kind.settings, record.timestamp, sequence);
      }
      data := data.(snapshots := data.snapshots + [Row(current, turn, sequence)]);
    }

    method TakeEventMessage(record: Record, sequence: nat)
      requires record.kind.EventMessage?
      modifies this`data, this`turn
      ensures State() == TakeEvent(old(State()), record, sequence)
    {
      hide AddLifecycle;
      var eventTurn := Fill(record.explicitTurn, turn);
      if record.kind.lifecycle.Some? && eventTurn.Some? {
        if record.kind.lifecycle.value == "turn_started" {
          turn := eventTurn;
        }
        RecordLifecycle(eventTurn.value, current, record.kind.lifecycle.value, record.timestamp, sequence);
      }
      if record.kind.item == Some(Call) {
        data := data.(calls := data.calls + [Row(current, eventTurn, sequence)]);
      } else if record.kind.item == Some(Result) {
        data := data.(results := data.results + [Row(current, eventTurn, sequence)]);
      }
      if record.kind.tokenCount.Some? {
        data := data.(usage := data.usage + [Usage(Row(current, eventTurn, sequence), record.kind.tokenCount.value)]);
      }
    }

    method TakeRecord(record: Record, sequence: nat, around: Surroundings)
      modifies this
      ensures State() == Take(old(State()), record, sequence, around)
    {
      hide TakeSessionMeta, TakeTurnContext, TakeEvent;
      var recordTurn := Fill(record.explicitTurn, turn);
      match record.kind {
        case SessionMeta(candidate) =>
          if candidate.Some? {
            TakeMeta(candidate.value, around);
          }
        case TurnContext(_) =>
          TakeContext(record, sequence);
          recordTurn := record.explicitTurn;
        case ResponseItem(item) =>
          match item {
            case Some(Message) => data := data.(messages := data.messages + [Row(current, recordTurn, sequence)]);
            case Some(Call) => data := data.(calls := data.calls + [Row(current, recordTurn, sequence)]);
            case Some(Result) => data := data.(results := data.results + [Row(current, recordTurn, sequence)]);
            case None =>
          }
        case EventMessage(_, _, _) =>
          TakeEventMessage(record, sequence);
        case Other =>
      }
      data := data.(records := data.records + [Row(current, recordTurn, sequence)]);
    }
  }

  method DeduplicateUsage(usage: seq<Usage>) returns (kept: seq<Usage>)
    ensures kept == Deduplicated(usage)
  {
    var seen := {};
    kept := [];
    for i := 0 to |usage|
      invariant kept == Deduplicated(usage[..i]) && seen == KeysOf(usage[..i])
    {
      var u := usage[i];
      assert usage[..i + 1][..i] == usage[..i] && usage[..i + 1] == usage[..i] + [u];
      if !HasOwner(u) {
        kept := kept + [u];
      } else if KeyOf(u) !in seen {
        seen := seen + {KeyOf(u)};
        kept := kept + [u];
      }
    }
    assert usage[..|usage|] == usage;
  }

  method FindFirstTurn(turns: seq<Turn>, id: string) returns (found: Option<Turn>)
    ensures found == Find(turns, (t: Turn) => t.id == id)
  {
    var i := 0;
    while i < |turns|
      invariant i <= |turns|
      invariant Find(turns, (t: Turn) => t.id == id) == Find(turns[i..], (t: Turn) => t.id == id)
    {
      if turns[i].id == id {
        return Some(turns[i]);
      }
      assert turns[i..][1..] == turns[i + 1..];
      i := i + 1;
    }
    return None;
  }

  method NormalizeRecords(path: Option<string>, records: seq<Record>, context: Context, base: nat, around: Surroundings)
    returns (final: Progress, next: Context)
    ensures final == Run(path, records, context, base, around) && next == HandOver(final)
  {
    hide Start, Take, Deduplicated, Find;
    var normalizer := new Normalizer(path, context, around);
    for n := 0 to |records|
      invariant fresh(normalizer)
      invariant normalizer.State() == RunFirst(Start(path, context, around), records, n, base, around)
    {
      normalizer.TakeRecord(records[n], base + n + 1, around);
    }
    final := normalizer.State();
    next := Context(None, None);
    if final.current.Some? && final.current.value in final.sessions {
      next := next.(session := Some(final.sessions[final.current.value]));
    }
    if final.turn.Some? {
      var turn := FindFirstTurn(final.data.turns, final.turn.value);
      next := next.(turn := turn);
    }
    var usage := DeduplicateUsage(final.data.usage);
    final := final.(data := final.data.(usage := usage));
  }
}
