/** How normalisation attributes rows to sessions while session metadata arrives, src/normalize.rs. */
module Sessions {
  import opened Wrappers
  import Order

  datatype SourceKind = Rollout | State

  /** The identifying fields of a session; its descriptive metadata is merged the same way and left out. */
  datatype Session = Session(
    id: string, rolloutId: Option<string>, sessionId: Option<string>, threadId: Option<string>,
    rolloutPath: Option<string>, parentId: Option<string>, kind: SourceKind)

  /** A record, message, call, result or instruction snapshot, as far as it is attributed. */
  datatype Row = Row(session: Option<string>, turn: Option<string>, sequence: nat)

  datatype Counters = Counters(
    input: Option<nat>, cachedInput: Option<nat>, output: Option<nat>, reasoningOutput: Option<nat>)

  datatype Usage = Usage(row: Row, counters: Counters)

  datatype Lifecycle = Lifecycle(kind: string, timestamp: Option<string>, sequence: nat)

  datatype Settings = Settings(cwd: Option<string>, model: Option<string>, reasoningEffort: Option<string>)

  datatype Turn = Turn(
    id: string, session: Option<string>, startedAt: Option<string>, completedAt: Option<string>,
    settings: Settings, sequence: nat, lifecycle: seq<Lifecycle>)

  datatype Item = Message | Call | Result

  /** What decoding a line yields: no candidate without an identity, no settings or counters without a payload. */
  datatype Kind =
    | SessionMeta(candidate: Option<Session>)
    | TurnContext(settings: Option<Settings>)
    | ResponseItem(item: Option<Item>)
    | EventMessage(lifecycle: Option<string>, item: Option<Item>, tokenCount: Option<Counters>)
    | Other

  datatype Record = Record(explicitTurn: Option<string>, timestamp: Option<string>, kind: Kind)

  datatype Data = Data(
    turns: seq<Turn>, records: seq<Row>, messages: seq<Row>, calls: seq<Row>, results: seq<Row>,
    usage: seq<Usage>, snapshots: seq<Row>)

  datatype Progress =
    Progress(data: Data, sessions: map<string, Session>, current: Option<string>, turn: Option<string>)

  /** The state database's sessions, and whether two different spellings name one path. */
  datatype Surroundings = Surroundings(state: seq<Session>, samePath: (string, string) -> bool)

  // ---- Which sessions belong together ----

  function Find<T>(items: seq<T>, p: T -> bool): (found: Option<T>)
    ensures found.Some? ==> found.value in items && p(found.value)
    ensures found.None? ==> forall x :: x in items ==> !p(x)
  {
    if items == [] then None
    else
      assert items == [items[0]] + items[1..];
      if p(items[0]) then Some(items[0]) else Find(items[1..], p)
  }

  predicate BothAndEqual(a: Option<string>, b: Option<string>)
  {
    a.Some? && a == b
  }

  predicate PathMatches(a: Option<string>, b: Option<string>, around: Surroundings)
  {
    a.Some? && b.Some? && (a == b || around.samePath(a.value, b.value))
  }

  predicate IdentitiesMatch(a: Session, b: Session)
  {
    if a.id == b.id then true
    else if a.threadId.Some? && b.threadId.Some? then a.threadId == b.threadId
    else BothAndEqual(a.rolloutId, b.rolloutId) || BothAndEqual(a.sessionId, b.sessionId)
  }

  predicate SameRolloutSource(a: Session, b: Session, around: Surroundings)
  {
    && PathMatches(a.rolloutPath, b.rolloutPath, around)
    && (a.rolloutId.Some? || b.rolloutId.Some? || a.kind == State || b.kind == State)
  }

  function StateFor(candidate: Session, around: Surroundings): Option<Session>
  {
    var sameId := Find(around.state, (s: Session) => s.id == candidate.id);
    if sameId.Some? then sameId
    else
      var samePath := Find(around.state, (s: Session) => PathMatches(s.rolloutPath, candidate.rolloutPath, around));
      if samePath.Some? then samePath
      else Find(around.state, (s: Session) => IdentitiesMatch(candidate, s))
  }

  function Fill<T>(known: Option<T>, incoming: Option<T>): Option<T>
  {
    if known.Some? then known else incoming
  }

  function Merge(target: Session, incoming: Session): Session
  {
    target.(rolloutId := Fill(target.rolloutId, incoming.rolloutId),
            sessionId := Fill(target.sessionId, incoming.sessionId),
            threadId := Fill(target.threadId, incoming.threadId),
            rolloutPath := Fill(target.rolloutPath, incoming.rolloutPath),
            parentId := Fill(target.parentId, incoming.parentId))
  }

  function MergeSome(target: Session, incoming: Option<Session>): Session
  {
    if incoming.Some? then Merge(target, incoming.value) else target
  }

  // ---- The first key of an ordered map ----

  predicate IsLeast(keys: set<string>, k: string)
  {
    k in keys && forall other :: other in keys && other != k ==> Order.StringLess(k, other)
  }

  lemma LeastExists(keys: set<string>) returns (k: string)
    requires keys != {}
    ensures IsLeast(keys, k)
  {
    hide Order.StringLess;
    var some :| some in keys;
    var rest := keys - {some};
    k := some;
    assert forall other :: other in keys ==> other == some || other in rest;
    if rest != {} {
      var least := LeastExists(rest);
      Order.StringsCompare(some, least);
      if !Order.StringLess(some, least) {
        k := least;
      }
      forall other | other in keys && other != k ensures Order.StringLess(k, other) {
        if other in rest && other != least && k == some {
          Order.StringLessTransitive(some, least, other);
        }
      }
    }
  }

  lemma LeastIsUnique(keys: set<string>, a: string, b: string)
    requires IsLeast(keys, a) && IsLeast(keys, b)
    ensures a == b
  {
    hide Order.StringLess;
    Order.StringsCompare(a, b);
  }

  function Least(keys: set<string>): (k: string)
    requires keys != {}
    ensures IsLeast(keys, k)
  {
    assert exists k :: IsLeast(keys, k) by { var k := LeastExists(keys); }
    assert forall a, b | IsLeast(keys, a) && IsLeast(keys, b) :: a == b by {
      forall a, b | IsLeast(keys, a) && IsLeast(keys, b) ensures a == b { LeastIsUnique(keys, a, b); }
    }
    var k :| k in keys && IsLeast(keys, k);
    k
  }

  // ---- Taking in session metadata ----

  /** The session already known for a candidate: the one of its id, or else the first from the same log. */
  function Existing(sessions: map<string, Session>, candidate: Session, around: Surroundings): (id: Option<string>)
    ensures id.Some? ==> id.value in sessions
  {
    var same := set k | k in sessions && SameRolloutSource(sessions[k], candidate, around);
    if candidate.id in sessions then Some(candidate.id) else if same != {} then Some(Least(same)) else None
  }

  /** The merged session: a rollout candidate replaces what the state database knew, otherwise the first one stays. */
  function Merged(sessions: map<string, Session>, candidate: Session, around: Surroundings): Session
  {
    var known := Existing(sessions, candidate, around);
    var fromState := StateFor(candidate, around);
    if known.None? then MergeSome(candidate, fromState)
    else
      var existing := sessions[known.value];
      if !SameRolloutSource(existing, candidate, around) then Merge(candidate, existing)
      else if existing.kind == State && candidate.kind == Rollout then MergeSome(Merge(candidate, existing), fromState)
      else MergeSome(Merge(existing, candidate), fromState)
  }

  function MergeRolloutSession(sessions: map<string, Session>, candidate: Session, around: Surroundings)
    : map<string, Session>
  {
    var known := Existing(sessions, candidate, around);
    var merged := Merged(sessions, candidate, around);
    (if known.Some? then sessions - {known.value} else sessions)[merged.id := merged]
  }

  // ---- Rekeying ----

  function Renamed(session: Option<string>, from: string, to: string): Option<string>
  {
    if session == Some(from) then Some(to) else session
  }

  function RenamedRows(rows: seq<Row>, from: string, to: string): (renamed: seq<Row>)
    ensures |renamed| == |rows|
    ensures forall i :: 0 <= i < |rows| ==> renamed[i] == rows[i].(session := Renamed(rows[i].session, from, to))
  {
    seq(|rows|, i requires 0 <= i < |rows| => rows[i].(session := Renamed(rows[i].session, from, to)))
  }

  function RenamedUsage(usage: seq<Usage>, from: string, to: string): (renamed: seq<Usage>)
    ensures |renamed| == |usage|
    ensures forall i :: 0 <= i < |usage| ==>
              renamed[i] == usage[i].(row := usage[i].row.(session := Renamed(usage[i].row.session, from, to)))
  {
    seq(|usage|, i requires 0 <= i < |usage| =>
      usage[i].(row := usage[i].row.(session := Renamed(usage[i].row.session, from, to))))
  }

  function RenamedTurns(turns: seq<Turn>, from: string, to: string): (renamed: seq<Turn>)
    ensures |renamed| == |turns|
    ensures forall i :: 0 <= i < |turns| ==> renamed[i] == turns[i].(session := Renamed(turns[i].session, from, to))
  {
    seq(|turns|, i requires 0 <= i < |turns| => turns[i].(session := Renamed(turns[i].session, from, to)))
  }

  function RenamedData(data: Data, from: string, to: string): Data
  {
    Data(RenamedTurns(data.turns, from, to), RenamedRows(data.records, from, to), RenamedRows(data.messages, from, to),
         RenamedRows(data.calls, from, to), RenamedRows(data.results, from, to), RenamedUsage(data.usage, from, to),
         RenamedRows(data.snapshots, from, to))
  }

  function RenamedParents(sessions: map<string, Session>, from: string, to: string): map<string, Session>
  {
    map k | k in sessions :: sessions[k].(parentId := Renamed(sessions[k].parentId, from, to))
  }

  // ---- Turns ----

  function TurnPosition(turns: seq<Turn>, id: string, session: Option<string>): (at: Option<nat>)
    ensures at.Some? ==> at.value < |turns| && turns[at.value].id == id && turns[at.value].session == session
    ensures at.Some? ==> forall i :: 0 <= i < at.value ==> !(turns[i].id == id && turns[i].session == session)
    ensures at.None? ==> forall i :: 0 <= i < |turns| ==> !(turns[i].id == id && turns[i].session == session)
  {
    if turns == [] then None
    else if turns[0].id == id && turns[0].session == session then Some(0)
    else
      match TurnPosition(turns[1..], id, session)
      case Some(i) => Some(i + 1)
      case None => None
  }

  /** The turns with this one in them, and where it is. */
  function Ensured(turns: seq<Turn>, id: string, session: Option<string>, sequence: nat): (r: (seq<Turn>, nat))
    ensures r.1 < |r.0|
  {
    match TurnPosition(turns, id, session)
    case Some(i) => (turns, i)
    case None => (turns + [Turn(id, session, None, None, Settings(None, None, None), sequence, [])], |turns|)
  }

  function FillSettings(known: Settings, incoming: Option<Settings>): Settings
  {
    if incoming.None? then known
    else
      Settings(Fill(known.cwd, incoming.value.cwd), Fill(known.model, incoming.value.model),
               Fill(known.reasoningEffort, incoming.value.reasoningEffort))
  }

  function Updated(turn: Turn, settings: Option<Settings>, timestamp: Option<string>): Turn
  {
    turn.(settings := FillSettings(turn.settings, settings), startedAt := Fill(turn.startedAt, timestamp))
  }

  function AddOrUpdateTurn(turns: seq<Turn>, id: string, session: Option<string>, settings: Option<Settings>,
                           timestamp: Option<string>, sequence: nat): seq<Turn>
  {
    var (more, i) := Ensured(turns, id, session, sequence);
    more[i := Updated(more[i], settings, timestamp)]
  }

  function Lived(turn: Turn, kind: string, timestamp: Option<string>, sequence: nat): Turn
  {
    turn.(completedAt := if kind == "turn_complete" || kind == "turn_aborted" then timestamp else turn.completedAt,
          startedAt := if kind == "turn_started" then timestamp else turn.startedAt,
          lifecycle := turn.lifecycle + [Lifecycle(kind, timestamp, sequence)])
  }

  function AddLifecycle(turns: seq<Turn>, id: string, session: Option<string>, kind: string, timestamp: Option<string>,
                        sequence: nat): seq<Turn>
  {
    var (more, i) := Ensured(turns, id, session, sequence);
    more[i := Lived(more[i], kind, timestamp, sequence)]
  }

  // ---- One record ----

  function IsStateFallback(p: Progress): bool
  {
    p.current.Some? && p.current.value in p.sessions && p.sessions[p.current.value].kind == State
  }

  function TakeSessionMeta(p: Progress, candidate: Session, around: Surroundings): Progress
  {
    var sessions := MergeRolloutSession(p.sessions, candidate, around);
    var id := Merged(p.sessions, candidate, around).id;
    if IsStateFallback(p) && p.current.value != id then
      Progress(RenamedData(p.data, p.current.value, id), RenamedParents(sessions, p.current.value, id), Some(id), None)
    else Progress(p.data, sessions, Some(id), None)
  }

  function TakeTurnContext(p: Progress, record: Record, sequence: nat): Progress
    requires record.kind.TurnContext?
  {
    var turns := if record.explicitTurn.None? then p.data.turns
                 else AddOrUpdateTurn(p.data.turns, record.explicitTurn.value, p.current, record.kind.settings,
                                      record.timestamp, sequence);
    p.(turn := record.explicitTurn,
       data := p.data.(turns := turns, snapshots := p.data.snapshots + [Row(p.current, record.explicitTurn, sequence)]))
  }

  function TakeItem(data: Data, item: Option<Item>, row: Row): Data
  {
    match item
    case Some(Message) => data.(messages := data.messages + [row])
    case Some(Call) => data.(calls := data.calls + [row])
    case Some(Result) => data.(results := data.results + [row])
    case None => data
  }

  function TakeEvent(p: Progress, record: Record, sequence: nat): Progress
    requires record.kind.EventMessage?
  {
    var turn := Fill(record.explicitTurn, p.turn);
    var q :=
      if record.kind.lifecycle.Some? && turn.Some? then
        p.(turn := if record.kind.lifecycle.value == "turn_started" then turn else p.turn,
           data := p.data.(turns := AddLifecycle(p.data.turns, turn.value, p.current, record.kind.lifecycle.value,
                                                 record.timestamp, sequence)))
      else p;
    var item := if record.kind.item == Some(Message) then None else record.kind.item;
    var row := Row(p.current, turn, sequence);
    var data := TakeItem(q.data, item, row);
    q.(data := if record.kind.tokenCount.Some? then
        data.(usage := data.usage + [Usage(row, record.kind.tokenCount.value)])
               else data)
  }

  /** Only response items can be messages; every record is also kept as a row of its own. */
  function Take(p: Progress, record: Record, sequence: nat, around: Surroundings): Progress
  {
    var q :=
      match record.kind
      case SessionMeta(candidate) => if candidate.Some? then TakeSessionMeta(p, candidate.value, around) else p
      case TurnContext(_) => TakeTurnContext(p, record, sequence)
      case ResponseItem(item) => p.(data := TakeItem(p.data, item,
          Row(p.current, Fill(record.explicitTurn, p.turn), sequence)))
      case EventMessage(_, _, _) => TakeEvent(p, record, sequence)
      case Other => p;
    var turn := if record.kind.TurnContext? then record.explicitTurn else Fill(record.explicitTurn, p.turn);
    q.(data := q.data.(records := q.data.records + [Row(q.current, turn, sequence)]))
  }

  // ---- A whole run ----

  const NO_DATA := Data([], [], [], [], [], [], [])

  /** What an earlier poll handed over, if any. */
  datatype Context = Context(session: Option<Session>, turn: Option<Turn>)

  function Start(path: Option<string>, context: Context, around: Surroundings): Progress
  {
    var data := if context.turn.Some? then NO_DATA.(turns := [context.turn.value]) else NO_DATA;
    var turn := if context.turn.Some? then Some(context.turn.value.id) else None;
    if context.session.Some? then
      Progress(data, map[context.session.value.id := context.session.value], Some(context.session.value.id), turn)
    else
      var matched := Find(around.state, (s: Session) => PathMatches(s.rolloutPath, path, around));
      if matched.None? then Progress(data, map[], None, turn)
      else
        var first := Find(around.state, (s: Session) => s.id == matched.value.id);
        Progress(data, if first.Some? then map[first.value.id := first.value] else map[], Some(matched.value.id), turn)
  }

  function RunFirst(start: Progress, records: seq<Record>, n: nat, base: nat, around: Surroundings): Progress
    requires n <= |records|
  {
    if n == 0 then start
    else Take(RunFirst(start, records, n - 1, base, around), records[n - 1], base + n, around)
  }

  // ---- Repeated usage rows ----

  datatype UsageKey = UsageKey(session: Option<string>, turn: Option<string>, counters: Counters)

  predicate HasOwner(u: Usage)
  {
    u.row.session.Some? || u.row.turn.Some?
  }

  function KeyOf(u: Usage): UsageKey
  {
    UsageKey(u.row.session, u.row.turn, u.counters)
  }

  function KeysOf(usage: seq<Usage>): set<UsageKey>
  {
    set u | u in usage && HasOwner(u) :: KeyOf(u)
  }

  /** A row with an owner is dropped when a row with its key came before. */
  function Deduplicated(usage: seq<Usage>): seq<Usage>
  {
    if usage == [] then []
    else
      var init, last := usage[..|usage| - 1], usage[|usage| - 1];
      Deduplicated(init) + if HasOwner(last) && KeyOf(last) in KeysOf(init) then [] else [last]
  }

  function Finished(p: Progress): Progress
  {
    p.(data := p.data.(usage := Deduplicated(p.data.usage)))
  }

  function Run(path: Option<string>, records: seq<Record>, context: Context, base: nat, around: Surroundings): Progress
  {
    Finished(RunFirst(Start(path, context, around), records, |records|, base, around))
  }

  /** What a run hands over to the next: its current session, and the first turn listed under the current turn's id. */
  function HandOver(p: Progress): Context
  {
    Context(if p.current.Some? && p.current.value in p.sessions then Some(p.sessions[p.current.value]) else None,
            if p.turn.Some? then Find(p.data.turns, (t: Turn) => t.id == p.turn.value) else None)
  }

  /**
   * What a reopened monitor takes from the store instead: the session of the last record if the log itself
   * brought it (`own`), and the turn of the last record under that record's session.
   */
  function StoredContext(last: Row, own: map<string, Session>, turns: seq<Turn>): Context
  {
    var at := if last.turn.Some? then TurnPosition(turns, last.turn.value, last.session) else None;
    Context(if last.session.Some? && last.session.value in own then Some(own[last.session.value]) else None,
            if at.Some? then Some(turns[at.value]) else None)
  }
}
