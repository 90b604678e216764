/** Reporting periods and the correlated report selection of src/period.rs. */
module Selection {
  import opened Wrappers
  import opened Timestamps
  import opened Order

  // ---- Half-open periods ----

  datatype Period = Period(start: Option<Timestamp>, end: Option<Timestamp>)

  datatype PeriodError = InvalidSince | InvalidUntil | Reversed

  datatype Bounds = NoPeriod | Bounded(period: Period) | Rejected(error: PeriodError)

  function FromBounds(since: Option<string>, until: Option<string>): Bounds
  {
    if since.None? && until.None? then NoPeriod
    else
      var start := if since.Some? then Parse(since.value) else None;
      var end := if until.Some? then Parse(until.value) else None;
      if since.Some? && start.None? then Rejected(InvalidSince)
      else if until.Some? && end.None? then Rejected(InvalidUntil)
      else if start.Some? && end.Some? && Less(end.value, start.value) then Rejected(Reversed)
      else Bounded(Period(start, end))
  }

  predicate Contains(p: Period, t: Timestamp)
  {
    (p.start.None? || AtMost(p.start.value, t)) && (p.end.None? || Less(t, p.end.value))
  }

  predicate Overlaps(p: Period, start: Timestamp, end: Timestamp)
  {
    && (p.start.None? || p.end.None? || Less(p.start.value, p.end.value))
    && AtMost(start, end)
    && (p.end.None? || Less(start, p.end.value))
    && (p.start.None? || Less(p.start.value, end))
  }

  function Earlier(a: Timestamp, b: Timestamp): Timestamp { if Less(b, a) then b else a }

  function Later(a: Timestamp, b: Timestamp): Timestamp { if Less(b, a) then a else b }

  /** Whether an interval known by its ends, or by one of them, touches the period. */
  predicate Intersects(p: Period, a: Option<Timestamp>, b: Option<Timestamp>)
  {
    match (a, b)
    case (Some(x), Some(y)) => Overlaps(p, Earlier(x, y), Later(x, y))
    case (Some(x), None) => Contains(p, x)
    case (None, Some(y)) => Contains(p, y)
    case (None, None) => false
  }

  /** No period at all selects everything, also what has no timestamp. */
  predicate InPeriod(p: Option<Period>, t: Option<Timestamp>)
  {
    p.None? || (t.Some? && Contains(p.value, t.value))
  }

  ghost predicate Wider(p: Option<Period>, q: Option<Period>)
  {
    q.None? ||
    (&& p.Some?
     && (q.value.start.None? || (p.value.start.Some? && AtMost(q.value.start.value, p.value.start.value)))
     && (q.value.end.None? || (p.value.end.Some? && AtMost(p.value.end.value, q.value.end.value))))
  }

  predicate IsEmpty(p: Period)
  {
    p.start.Some? && p.end.Some? && p.start == p.end
  }

  /** A text that is given but is no instant. */
  predicate IsBad(bound: Option<string>)
  {
    bound.Some? && Parse(bound.value).None?
  }

  predicate AreReversed(since: Option<string>, until: Option<string>)
  {
    && since.Some? && until.Some? && !IsBad(since) && !IsBad(until)
    && Less(Parse(until.value).value, Parse(since.value).value)
  }

  /** Each answer is given exactly when it is due; a bad lower bound is reported before a bad upper one. */
  lemma BoundsAreExact(since: Option<string>, until: Option<string>)
    ensures var bounds := FromBounds(since, until);
            && (bounds.NoPeriod? <==> since.None? && until.None?)
            && (bounds == Rejected(InvalidSince) <==> IsBad(since))
            && (bounds == Rejected(InvalidUntil) <==> IsBad(until) && !IsBad(since))
            && (bounds == Rejected(Reversed) <==> AreReversed(since, until))
  {
    hide Parse;
  }

  /** The instants of an accepted period are those from the lower bound up to, not including, the upper bound. */
  lemma AcceptedPeriod(since: Option<string>, until: Option<string>, t: Timestamp)
    requires FromBounds(since, until).Bounded?
    ensures var p := FromBounds(since, until).period;
            Contains(p, t) <==>
            && (since.Some? ==> Parse(since.value).Some? && AtMost(Parse(since.value).value, t))
            && (until.Some? ==> Parse(until.value).Some? && Less(t, Parse(until.value).value))
  {
    hide Parse;
  }

  /** An accepted period contains no instant exactly when its bounds are given and equal. */
  lemma EmptyIffBoundsMeet(since: Option<string>, until: Option<string>)
    requires FromBounds(since, until).Bounded?
    ensures var p := FromBounds(since, until).period; IsEmpty(p) <==> forall t :: !Contains(p, t)
  {
    hide Parse;
    var p := FromBounds(since, until).period;
    if !IsEmpty(p) {
      var t := if p.start.Some? then p.start.value else Timestamp(p.end.value.seconds - 1, 0);
      assert Contains(p, t);
    }
  }

  /** Two periods that meet at a bound split the time line: an instant of the hull lies in exactly one of them. */
  lemma AdjacentPeriodsPartition(a: Option<Timestamp>, m: Timestamp, b: Option<Timestamp>, t: Timestamp)
    requires (a.None? || AtMost(a.value, m)) && (b.None? || AtMost(m, b.value))
    ensures Contains(Period(a, b), t) <==>
            (Contains(Period(a, Some(m)), t) != Contains(Period(Some(m), b), t))
    ensures !(Contains(Period(a, Some(m)), t) && Contains(Period(Some(m), b), t))
  {
  }

  lemma WiderKeeps(p: Option<Period>, q: Option<Period>, a: Option<Timestamp>, b: Option<Timestamp>)
    requires Wider(p, q)
    ensures InPeriod(p, a) ==> InPeriod(q, a)
    ensures p.Some? && q.Some? && Intersects(p.value, a, b) ==> Intersects(q.value, a, b)
  {
  }

  // ---- The data ----

  datatype Source = Source(path: Path, line: Option<nat>)

  datatype Role = User | Assistant | OtherRole

  datatype Record = Record(
    sessionId: Option<string>, turnId: Option<string>, timestamp: Option<string>, provenance: Source)

  datatype Session = Session(id: string, createdAt: Option<string>, updatedAt: Option<string>)

  datatype Message = Message(
    sessionId: Option<string>, turnId: Option<string>, role: Option<Role>, timestamp: Option<string>,
    provenance: Source)

  datatype ToolCall = ToolCall(
    callId: Option<string>, sessionId: Option<string>, turnId: Option<string>, provenance: Source)

  datatype ToolResult = ToolResult(
    callId: Option<string>, sessionId: Option<string>, turnId: Option<string>, isDuplicate: bool, provenance: Source)

  /** File operations and token usage: rows with a timestamp of their own. */
  datatype Event = Event(
    sessionId: Option<string>, turnId: Option<string>, timestamp: Option<string>, provenance: Source)

  datatype Snapshot = Snapshot(sessionId: Option<string>, turnId: Option<string>, provenance: Source)

  datatype Lifecycle = Lifecycle(kind: string, timestamp: Option<string>, provenance: Source)

  datatype Turn = Turn(
    id: string, sessionId: Option<string>, startedAt: Option<string>, completedAt: Option<string>,
    lifecycle: seq<Lifecycle>)

  datatype Data = Data(
    records: seq<Record>, sessions: seq<Session>, messages: seq<Message>, calls: seq<ToolCall>,
    results: seq<ToolResult>, fileOperations: seq<Event>, usage: seq<Event>, snapshots: seq<Snapshot>,
    turns: seq<Turn>)

  type TurnKey = (string, string)

  type Context = (Option<string>, Option<string>)

  // ---- When things happened ----

  function ParseOption(text: Option<string>): Option<Timestamp>
  {
    if text.Some? then Parse(text.value) else None
  }

  /** The time of each source line; a later record of the same line wins. */
  function RecordTimes(records: seq<Record>): map<Source, Option<Timestamp>>
  {
    if records == [] then map[]
    else
      var last := records[|records| - 1];
      RecordTimes(records[..|records| - 1])[last.provenance := ParseOption(last.timestamp)]
  }

  type Times = map<Source, Option<Timestamp>>

  function SourceTime(source: Source, times: Times): Option<Timestamp>
  {
    if source in times then times[source] else None
  }

  /** An own timestamp counts even when it is unreadable; only its absence falls back to the source line. */
  function EventTime(text: Option<string>, source: Source, times: Times): Option<Timestamp>
  {
    if text.Some? then Parse(text.value) else SourceTime(source, times)
  }

  /** What the selection looks at in any row: its time and what it belongs to. */
  datatype Stamp = Stamp(time: Option<Timestamp>, sessionId: Option<string>, turnId: Option<string>)

  function RecordStamps(d: Data): seq<Stamp>
  {
    seq(|d.records|, i requires 0 <= i < |d.records| =>
      var r := d.records[i]; Stamp(ParseOption(r.timestamp), r.sessionId, r.turnId))
  }

  function MessageStamps(d: Data, times: Times): seq<Stamp>
  {
    seq(|d.messages|, i requires 0 <= i < |d.messages| =>
      var m := d.messages[i]; Stamp(EventTime(m.timestamp, m.provenance, times), m.sessionId, m.turnId))
  }

  function CallStamps(d: Data, times: Times): seq<Stamp>
  {
    seq(|d.calls|, i requires 0 <= i < |d.calls| =>
      var c := d.calls[i]; Stamp(SourceTime(c.provenance, times), c.sessionId, c.turnId))
  }

  function ResultStamps(d: Data, times: Times): seq<Stamp>
  {
    seq(|d.results|, i requires 0 <= i < |d.results| =>
      var r := d.results[i]; Stamp(SourceTime(r.provenance, times), r.sessionId, r.turnId))
  }

  function EventStamps(events: seq<Event>, times: Times): seq<Stamp>
  {
    seq(|events|, i requires 0 <= i < |events| =>
      var e := events[i]; Stamp(EventTime(e.timestamp, e.provenance, times), e.sessionId, e.turnId))
  }

  function SnapshotStamps(d: Data, times: Times): seq<Stamp>
  {
    seq(|d.snapshots|, i requires 0 <= i < |d.snapshots| =>
      var s := d.snapshots[i]; Stamp(SourceTime(s.provenance, times), s.sessionId, s.turnId))
  }

  // ---- Direct selection ----

  function Direct(stamps: seq<Stamp>, p: Option<Period>): set<nat>
  {
    set i: nat | i < |stamps| && InPeriod(p, stamps[i].time)
  }

  function SessionsOf(stamps: seq<Stamp>, indices: set<nat>): set<string>
  {
    set i: nat | i in indices && i < |stamps| && stamps[i].sessionId.Some? :: stamps[i].sessionId.value
  }

  function TurnsOf(stamps: seq<Stamp>, indices: set<nat>): set<TurnKey>
  {
    set i: nat | i in indices && i < |stamps| && stamps[i].sessionId.Some? && stamps[i].turnId.Some? ::
      (stamps[i].sessionId.value, stamps[i].turnId.value)
  }

  /** How many rows a pass included, excluded, or could not place in time. */
  datatype Tally = Tally(included: nat, excluded: nat, unknown: nat)

  function TallyOf(stamps: seq<Stamp>, p: Option<Period>): Tally
  {
    if stamps == [] then Tally(0, 0, 0)
    else
      var t := TallyOf(stamps[..|stamps| - 1], p);
      var time := stamps[|stamps| - 1].time;
      Tally(
        t.included + (if InPeriod(p, time) then 1 else 0),
        t.excluded + (if p.Some? && time.Some? && !InPeriod(p, time) then 1 else 0),
        t.unknown + (if time.None? then 1 else 0))
  }

  /** Nothing is lost: under a period the three counts add up to the total; without one every row is included. */
  lemma {:induction false} TallyConserves(stamps: seq<Stamp>, p: Option<Period>)
    ensures var t := TallyOf(stamps, p);
            && t.included == |Direct(stamps, p)|
            && (p.Some? ==> t.included + t.excluded + t.unknown == |stamps|)
            && (p.None? ==> t.included == |stamps| && t.excluded == 0)
  {
    if stamps != [] {
      var n := |stamps| - 1;
      TallyConserves(stamps[..n], p);
      DirectSnoc(stamps, n, p);
      assert stamps[..n + 1] == stamps;
      assert n !in Direct(stamps[..n], p);
    }
  }

  /** One pass over rows: the indices inside the period, the sessions and turns they name, and the counts. */
  method SelectDirect(stamps: seq<Stamp>, p: Option<Period>, sessions0: set<string>, turns0: set<TurnKey>)
    returns (indices: set<nat>, sessions: set<string>, turns: set<TurnKey>, tally: Tally)
    ensures indices == Direct(stamps, p)
    ensures sessions == sessions0 + SessionsOf(stamps, indices)
    ensures turns == turns0 + TurnsOf(stamps, indices)
    ensures tally == TallyOf(stamps, p)
  {
    hide Direct, SessionsOf, TurnsOf, TallyOf;
    indices, sessions, turns := {}, sessions0, turns0;
    var included, excluded, unknown: nat := 0, 0, 0;
    NothingSelected(stamps, p);
    for i := 0 to |stamps|
      invariant indices == Direct(stamps[..i], p)
      invariant sessions == sessions0 + SessionsOf(stamps, indices)
      invariant turns == turns0 + TurnsOf(stamps, indices)
      invariant Tally(included, excluded, unknown) == TallyOf(stamps[..i], p)
    {
      var stamp := stamps[i];
      DirectSnoc(stamps, i, p);
      TallySnoc(stamps, i, p);
      if stamp.time.None? {
        unknown := unknown + 1;
      } else if p.Some? && !Contains(p.value, stamp.time.value) {
        excluded := excluded + 1;
      }
      if p.None? || (stamp.time.Some? && Contains(p.value, stamp.time.value)) {
        included := included + 1;
        NamedByOneMore(stamps, indices, i);
        indices := indices + {i};
        if stamp.sessionId.Some? {
          sessions := sessions + {stamp.sessionId.value};
          if stamp.turnId.Some? {
            turns := turns + {(stamp.sessionId.value, stamp.turnId.value)};
          }
        }
      }
    }
    assert stamps[..|stamps|] == stamps;
    tally := Tally(included, excluded, unknown);
  }

  lemma NothingSelected(stamps: seq<Stamp>, p: Option<Period>)
    ensures Direct(stamps[..0], p) == {} && SessionsOf(stamps, {}) == {} && TurnsOf(stamps, {}) == {}
    ensures TallyOf(stamps[..0], p) == Tally(0, 0, 0)
  {
  }

  lemma TallySnoc(stamps: seq<Stamp>, i: nat, p: Option<Period>)
    requires i < |stamps|
    ensures var t := TallyOf(stamps[..i], p);
            var time := stamps[i].time;
            TallyOf(stamps[..i + 1], p) == Tally(
              t.included + (if InPeriod(p, time) then 1 else 0),
              t.excluded + (if p.Some? && time.Some? && !InPeriod(p, time) then 1 else 0),
              t.unknown + (if time.None? then 1 else 0))
  {
    assert stamps[..i + 1][..i] == stamps[..i];
  }

  lemma DirectSnoc(stamps: seq<Stamp>, i: nat, p: Option<Period>)
    requires i < |stamps|
    ensures Direct(stamps[..i + 1], p) == Direct(stamps[..i], p) + if InPeriod(p, stamps[i].time) then {i} else {}
  {
  }

  lemma NamedByOneMore(stamps: seq<Stamp>, indices: set<nat>, i: nat)
    requires i < |stamps|
    ensures var s := stamps[i];
            && SessionsOf(stamps, indices + {i}) ==
               SessionsOf(stamps, indices) + (if s.sessionId.Some? then {s.sessionId.value} else {})
            && TurnsOf(stamps, indices + {i}) ==
               TurnsOf(stamps, indices)
               + (if s.sessionId.Some? && s.turnId.Some? then {(s.sessionId.value, s.turnId.value)} else {})
  {
    var s := stamps[i];
    assert i in indices + {i};
    if s.sessionId.Some? {
      assert s.sessionId.value in SessionsOf(stamps, indices + {i});
      if s.turnId.Some? {
        assert (s.sessionId.value, s.turnId.value) in TurnsOf(stamps, indices + {i});
      }
    }
    forall x | x in SessionsOf(stamps, indices) ensures x in SessionsOf(stamps, indices + {i}) {
      var j: nat :| j in indices && j < |stamps| && stamps[j].sessionId.Some? && stamps[j].sessionId.value == x;
      assert j in indices + {i};
    }
    forall x | x in TurnsOf(stamps, indices) ensures x in TurnsOf(stamps, indices + {i}) {
      var j: nat :| j in indices && j < |stamps| && stamps[j].sessionId.Some? && stamps[j].turnId.Some?
                    && (stamps[j].sessionId.value, stamps[j].turnId.value) == x;
      assert j in indices + {i};
    }
  }

  // ---- Correlation of calls and results ----

  /** All positions of a key, in order. */
  function Positions<K(==)>(keys: seq<Option<K>>, key: K): seq<nat>
  {
    if keys == [] then []
    else Positions(keys[..|keys| - 1], key) + if keys[|keys| - 1] == Some(key) then [|keys| - 1] else []
  }

  lemma {:induction false} PositionsAre<K(!new)>(keys: seq<Option<K>>, key: K)
    ensures forall i :: i in Positions(keys, key) <==> 0 <= i < |keys| && keys[i] == Some(key)
  {
    if keys != [] {
      PositionsAre(keys[..|keys| - 1], key);
    }
  }

  /** The index built once and looked up per row: absent keys have no entry. */
  method GroupBy<K(==,!new)>(keys: seq<Option<K>>) returns (groups: map<K, seq<nat>>)
    ensures forall k :: k in groups ==> groups[k] == Positions(keys, k) && groups[k] != []
    ensures forall k {:trigger Positions(keys, k)} :: k !in groups ==> Positions(keys, k) == []
  {
    groups := map[];
    for i := 0 to |keys|
      invariant forall k :: k in groups ==> groups[k] == Positions(keys[..i], k) && groups[k] != []
      invariant forall k {:trigger Positions(keys[..i], k)} :: k !in groups ==> Positions(keys[..i], k) == []
    {
      PositionsSnoc(keys, i);
      if keys[i].Some? {
        var key := keys[i].value;
        groups := groups[key := (if key in groups then groups[key] else []) + [i]];
      }
    }
    assert keys[..|keys|] == keys;
  }

  lemma PositionsSnoc<K(!new)>(keys: seq<Option<K>>, i: nat)
    requires i < |keys|
    ensures forall k :: Positions(keys[..i + 1], k) == Positions(keys[..i], k) + if keys[i] == Some(k) then [i] else []
  {
    assert keys[..i + 1][..i] == keys[..i];
  }
}
