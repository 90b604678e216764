/** What a report shows, in terms of the data and the period alone, src/period.rs. */
module ReportOutput {
  import opened Wrappers
  import opened Timestamps
  import opened Order
  import opened Selection
  import opened ReportSelection
  import opened Subsequences

  // ---- When ----

  /** In the period, by nanoseconds; without a period everything is, also what has no time. */
  predicate Within(p: Option<Period>, t: Option<Timestamp>)
  {
    p.None? ||
    (&& t.Some?
     && (p.value.start.Some? ==> InNanos(p.value.start.value) <= InNanos(t.value))
     && (p.value.end.Some? ==> InNanos(t.value) < InNanos(p.value.end.value)))
  }

  function Told(text: Option<string>): Option<Timestamp>
  {
    if text.Some? then Parse(text.value) else None
  }

  /** The time of a line is told by the last record from it. */
  function LineTime(records: seq<Record>, source: Source): Option<Timestamp>
  {
    if records == [] then None
    else if records[|records| - 1].provenance == source then Told(records[|records| - 1].timestamp)
    else LineTime(records[..|records| - 1], source)
  }

  /** A row's own text, when it has one, decides even if it tells no time. */
  function RowTime(text: Option<string>, source: Source, d: Data): Option<Timestamp>
  {
    if text.Some? then Told(text) else LineTime(d.records, source)
  }

  lemma {:induction false} LineTimeIs(records: seq<Record>, source: Source)
    ensures SourceTime(source, RecordTimes(records)) == LineTime(records, source)
  {
    hide Parse;
    if records != [] {
      LineTimeIs(records[..|records| - 1], source);
    }
  }

  lemma WithinIs(p: Option<Period>, t: Option<Timestamp>)
    ensures InPeriod(p, t) == Within(p, t)
  {
  }

  lemma RowTimeIs(text: Option<string>, source: Source, d: Data)
    ensures EventTime(text, source, RecordTimes(d.records)) == RowTime(text, source, d)
  {
    hide RecordTimes, LineTime, Parse;
    LineTimeIs(d.records, source);
  }

  // ---- Rows that are themselves in the period ----

  predicate RecordIn(d: Data, p: Option<Period>, i: nat)
  {
    i < |d.records| && Within(p, Told(d.records[i].timestamp))
  }

  predicate MessageIn(d: Data, p: Option<Period>, i: nat)
  {
    i < |d.messages| && Within(p, RowTime(d.messages[i].timestamp, d.messages[i].provenance, d))
  }

  predicate CallIn(d: Data, p: Option<Period>, i: nat)
  {
    i < |d.calls| && Within(p, LineTime(d.records, d.calls[i].provenance))
  }

  predicate ResultIn(d: Data, p: Option<Period>, i: nat)
  {
    i < |d.results| && Within(p, LineTime(d.records, d.results[i].provenance))
  }

  predicate OperationIn(d: Data, p: Option<Period>, i: nat)
  {
    i < |d.fileOperations| && Within(p, RowTime(d.fileOperations[i].timestamp, d.fileOperations[i].provenance, d))
  }

  predicate UsageIn(d: Data, p: Option<Period>, i: nat)
  {
    i < |d.usage| && Within(p, RowTime(d.usage[i].timestamp, d.usage[i].provenance, d))
  }

  predicate SnapshotIn(d: Data, p: Option<Period>, i: nat)
  {
    i < |d.snapshots| && Within(p, LineTime(d.records, d.snapshots[i].provenance))
  }

  lemma DirectIs(d: Data, p: Option<Period>)
    ensures var times := RecordTimes(d.records);
            && (forall i :: i in Direct(RecordStamps(d), p) <==> RecordIn(d, p, i))
            && (forall i :: i in Direct(MessageStamps(d, times), p) <==> MessageIn(d, p, i))
            && (forall i :: i in Direct(CallStamps(d, times), p) <==> CallIn(d, p, i))
            && (forall i :: i in Direct(ResultStamps(d, times), p) <==> ResultIn(d, p, i))
            && (forall i :: i in Direct(EventStamps(d.fileOperations, times), p) <==> OperationIn(d, p, i))
            && (forall i :: i in Direct(EventStamps(d.usage, times), p) <==> UsageIn(d, p, i))
            && (forall i :: i in Direct(SnapshotStamps(d, times), p) <==> SnapshotIn(d, p, i))
  {
    hide Parse, RecordTimes, LineTime, InPeriod, Within, EventTime, RowTime, SourceTime;
    forall t ensures InPeriod(p, t) == Within(p, t) {
      WithinIs(p, t);
    }
    forall source ensures SourceTime(source, RecordTimes(d.records)) == LineTime(d.records, source) {
      LineTimeIs(d.records, source);
    }
    forall text, source ensures EventTime(text, source, RecordTimes(d.records)) == RowTime(text, source, d) {
      RowTimeIs(text, source, d);
    }
  }

  // ---- Calls and their results ----

  predicate Agree(a: Option<string>, b: Option<string>)
  {
    a.None? || b.None? || a == b
  }

  ghost predicate NoIdCallThere(d: Data, k: nat, session: Option<string>, turn: Option<string>)
  {
    k < |d.calls| && d.calls[k].callId.None? && d.calls[k].sessionId == session && d.calls[k].turnId == turn
  }

  ghost predicate NoIdResultThere(d: Data, k: nat, session: Option<string>, turn: Option<string>)
  {
    && k < |d.results| && d.results[k].callId.None? && !d.results[k].isDuplicate
    && d.results[k].sessionId == session && d.results[k].turnId == turn
  }

  ghost predicate OneThere(d: Data, session: Option<string>, turn: Option<string>)
  {
    && (exists k :: NoIdCallThere(d, k, session, turn))
    && (forall k, l :: NoIdCallThere(d, k, session, turn) && NoIdCallThere(d, l, session, turn) ==> k == l)
    && (exists k :: NoIdResultThere(d, k, session, turn))
    && (forall k, l :: NoIdResultThere(d, k, session, turn) && NoIdResultThere(d, l, session, turn) ==> k == l)
  }

  /**
   * A pair has one id, and sessions and turns that agree where both are known; without ids it has one session and turn,
   * where there is no other call without an id and one result without an id, repeated ones aside.
   */
  ghost predicate Paired(d: Data, c: nat, r: nat)
  {
    && c < |d.calls| && r < |d.results|
    && var call, result := d.calls[c], d.results[r];
       && call.callId == result.callId
       && if call.callId.Some? then Agree(call.sessionId, result.sessionId) && Agree(call.turnId, result.turnId)
          else
            && call.sessionId == result.sessionId && call.turnId == result.turnId
            && OneThere(d, call.sessionId, call.turnId)
  }

  lemma {:induction false} PositionsAscend<K(!new)>(keys: seq<Option<K>>, key: K)
    ensures Ascending(Positions(keys, key), |keys|)
  {
    if keys != [] {
      var n := |keys| - 1;
      PositionsAscend(keys[..n], key);
      AscendingSnoc(Positions(keys[..n], key), n);
      hide Ascending;
    }
  }

  lemma OnePosition(at: seq<nat>, n: nat)
    requires Ascending(at, n)
    ensures |at| == 1 <==> at != [] && forall i, j :: i in at && j in at ==> i == j
  {
    if |at| > 1 {
      assert at[0] in at && at[1] in at && at[0] < at[1];
    } else if |at| == 1 {
      assert forall i :: i in at ==> i == at[0];
    }
  }

  lemma OneKey<K(!new)>(keys: seq<Option<K>>, key: K)
    ensures |Positions(keys, key)| == 1 <==>
            && (exists k: nat :: k < |keys| && keys[k] == Some(key))
            && forall k: nat, l: nat :: k < |keys| && l < |keys| && keys[k] == Some(key) == keys[l] ==> k == l
  {
    var at := Positions(keys, key);
    PositionsAre(keys, key);
    PositionsAscend(keys, key);
    OnePosition(at, |keys|);
    hide Positions, Ascending;
    assert at != [] ==> at[0] in at;
  }

  lemma UnambiguousIs(d: Data, session: Option<string>, turn: Option<string>)
    ensures Unambiguous(d, (session, turn)) <==> OneThere(d, session, turn)
  {
    var calls, results := NoIdCallKeys(d), OriginalNoIdResultKeys(d);
    OneKey(calls, (session, turn));
    OneKey(results, (session, turn));
    hide Positions;
    assert forall k: nat :: NoIdCallThere(d, k, session, turn) <==> k < |calls| && calls[k] == Some((session, turn));
    assert forall k: nat ::
        NoIdResultThere(d, k, session, turn) <==> k < |results| && results[k] == Some((session, turn));
    hide NoIdCallThere, NoIdResultThere, NoIdCallKeys, OriginalNoIdResultKeys;
  }

  lemma PairedIs(d: Data, c: nat, r: nat)
    ensures Correlated(d, c, r) <==> Paired(d, c, r)
  {
    hide Unambiguous, OneThere;
    if c < |d.calls| {
      UnambiguousIs(d, d.calls[c].sessionId, d.calls[c].turnId);
    }
  }

  // ---- The message before a user's ----

  predicate Sooner(a: Option<Timestamp>, b: Option<Timestamp>)
  {
    b.Some? && (a.None? || InNanos(a.value) < InNanos(b.value))
  }

  /** By time, then by the path of the log, then by line; what is missing comes first. */
  predicate Before(d: Data, a: Message, b: Message)
  {
    var s, t := RowTime(a.timestamp, a.provenance, d), RowTime(b.timestamp, b.provenance, d);
    if s != t then Sooner(s, t)
    else if a.provenance.path != b.provenance.path then PathLess(a.provenance.path, b.provenance.path)
    else
      && a.provenance.line != b.provenance.line && b.provenance.line.Some?
      && (a.provenance.line.None? || a.provenance.line.value < b.provenance.line.value)
  }

  predicate Leads(d: Data, k: nat, user: nat)
  {
    && k < |d.messages| && user < |d.messages|
    && d.messages[k].role == Some(Assistant) && d.messages[k].sessionId == d.messages[user].sessionId
    && Before(d, d.messages[k], d.messages[user])
  }

  /** The last of the latest assistant messages before the user's in its session. */
  ghost predicate LeadsLast(d: Data, k: nat, user: nat)
  {
    && Leads(d, k, user) && d.messages[user].role == Some(User)
    && forall j: nat :: Leads(d, j, user) ==>
         !Before(d, d.messages[k], d.messages[j]) && (Before(d, d.messages[j], d.messages[k]) || j <= k)
  }

  lemma BeforeIs(d: Data, a: Message, b: Message)
    ensures var times := RecordTimes(d.records);
            PositionLess(PositionOf(a, times), PositionOf(b, times)) == Before(d, a, b)
  {
    hide Parse, RecordTimes, PathLess, EventTime, RowTime;
    RowTimeIs(a.timestamp, a.provenance, d);
    RowTimeIs(b.timestamp, b.provenance, d);
  }

  ghost predicate IsLast(d: Data, times: Times, user: nat, n: nat, k: nat)
    requires user < |d.messages| && n <= |d.messages|
  {
    && k < n && Precedes(d, times, k, user)
    && forall j: nat :: j < n && Precedes(d, times, j, user) ==>
         && !PositionLess(PositionOf(d.messages[k], times), PositionOf(d.messages[j], times))
         && (PositionLess(PositionOf(d.messages[j], times), PositionOf(d.messages[k], times)) || j <= k)
  }

  /** Of messages in one place the last is chosen. */
  lemma {:induction false} LastOnTies(d: Data, times: Times, user: nat, n: nat)
    requires user < |d.messages| && n <= |d.messages|
    ensures var best := Preceding(d, times, user, n);
            best.Some? ==> best.value < n && forall j: nat :: j < n && Precedes(d, times, j, user) ==>
              j <= best.value
              || PositionLess(PositionOf(d.messages[j], times), PositionOf(d.messages[best.value], times))
  {
    hide Precedes, PositionLess, PositionOf;
    if n > 0 {
      LastOnTies(d, times, user, n - 1);
    }
  }

  lemma PrecedingIsLast(d: Data, times: Times, user: nat)
    requires user < |d.messages|
    ensures var best := Preceding(d, times, user, |d.messages|);
            && (best.Some? ==> IsLast(d, times, user, |d.messages|, best.value))
            && (best.None? ==> forall j: nat :: j < |d.messages| ==> !Precedes(d, times, j, user))
  {
    hide Preceding, Precedes, PositionLess, PositionOf;
    PrecedingIsLatest(d, times, user, |d.messages|);
    LastOnTies(d, times, user, |d.messages|);
  }

  lemma PrecedingIff(d: Data, times: Times, user: nat, k: nat)
    requires user < |d.messages|
    ensures Preceding(d, times, user, |d.messages|) == Some(k) <==> IsLast(d, times, user, |d.messages|, k)
  {
    hide Preceding, Precedes, PositionLess, PositionOf;
    PrecedingIsLast(d, times, user);
  }

  lemma LeadsIs(d: Data, k: nat, user: nat)
    ensures Leads(d, k, user) <==>
            k < |d.messages| && user < |d.messages| && Precedes(d, RecordTimes(d.records), k, user)
  {
    hide PositionLess, PositionOf, Before, RecordTimes;
    if k < |d.messages| && user < |d.messages| {
      BeforeIs(d, d.messages[k], d.messages[user]);
    }
  }

  lemma LastIs(d: Data, k: nat, user: nat)
    requires user < |d.messages| && d.messages[user].role == Some(User)
    ensures IsLast(d, RecordTimes(d.records), user, |d.messages|, k) <==> LeadsLast(d, k, user)
  {
    hide RecordTimes, Precedes, Leads, Before, PositionLess, PositionOf;
    LeadsIs(d, k, user);
    forall j: nat ensures Leads(d, j, user) <==> j < |d.messages| && Precedes(d, RecordTimes(d.records), j, user) {
      LeadsIs(d, j, user);
    }
    if k < |d.messages| {
      forall j: nat | j < |d.messages|
        ensures var a, b := PositionOf(d.messages[j], RecordTimes(d.records)),
                            PositionOf(d.messages[k], RecordTimes(d.records));
                PositionLess(a, b) == Before(d, d.messages[j], d.messages[k])
                && PositionLess(b, a) == Before(d, d.messages[k], d.messages[j])
      {
        BeforeIs(d, d.messages[j], d.messages[k]);
        BeforeIs(d, d.messages[k], d.messages[j]);
      }
    }
  }

  lemma ContextIs(d: Data, k: nat, user: nat)
    ensures IsContextFor(d, RecordTimes(d.records), k, user) <==> LeadsLast(d, k, user)
  {
    hide RecordTimes, IsLast, Preceding, Before;
    if user < |d.messages| && d.messages[user].role == Some(User) {
      hide LeadsLast;
      LastIs(d, k, user);
      PrecedingIff(d, RecordTimes(d.records), user, k);
    }
  }

  // ---- Intervals ----

  function Lower(x: int, y: int): int { if x <= y then x else y }

  function Upper(x: int, y: int): int { if x <= y then y else x }

  /** An interval known by both ends, in either order, or by one; one instant must lie inside the period proper. */
  predicate Touches(p: Period, a: Option<Timestamp>, b: Option<Timestamp>)
  {
    if a.Some? && b.Some? then
      var x, y := InNanos(a.value), InNanos(b.value);
      && (p.start.Some? && p.end.Some? ==> InNanos(p.start.value) < InNanos(p.end.value))
      && (p.end.Some? ==> Lower(x, y) < InNanos(p.end.value))
      && (p.start.Some? ==> InNanos(p.start.value) < Upper(x, y))
    else if a.None? && b.None? then false
    else Within(Some(p), if a.Some? then a else b)
  }

  lemma TouchesIs(p: Period, a: Option<Timestamp>, b: Option<Timestamp>)
    ensures Intersects(p, a, b) == Touches(p, a, b)
  {
  }

  /** An interval of some length touches a period exactly when they share an instant, its end not counted. */
  lemma TouchingSharesAnInstant(p: Period, a: Timestamp, b: Timestamp)
    requires InNanos(a) < InNanos(b)
    ensures Touches(p, Some(a), Some(b)) <==>
            exists t :: InNanos(a) <= InNanos(t) < InNanos(b) && Within(Some(p), Some(t))
    ensures Touches(p, Some(b), Some(a)) == Touches(p, Some(a), Some(b))
  {
    if Touches(p, Some(a), Some(b)) {
      var t := if p.start.Some? && InNanos(a) < InNanos(p.start.value) then p.start.value else a;
      assert InNanos(a) <= InNanos(t) < InNanos(b) && Within(Some(p), Some(t));
    }
  }

  // ---- Sessions and turns ----

  /** A row in the period names the session and the turn. */
  ghost predicate NamesTurn(d: Data, p: Option<Period>, session: string, turn: string)
  {
    var s, t := Some(session), Some(turn);
    || (exists i: nat :: RecordIn(d, p, i) && d.records[i].sessionId == s && d.records[i].turnId == t)
    || (exists i: nat :: MessageIn(d, p, i) && d.messages[i].sessionId == s && d.messages[i].turnId == t)
    || (exists i: nat :: ResultIn(d, p, i) && d.results[i].sessionId == s && d.results[i].turnId == t)
    || (exists i: nat :: CallIn(d, p, i) && d.calls[i].sessionId == s && d.calls[i].turnId == t)
    || (exists i: nat :: OperationIn(d, p, i) && d.fileOperations[i].sessionId == s && d.fileOperations[i].turnId == t)
    || (exists i: nat :: UsageIn(d, p, i) && d.usage[i].sessionId == s && d.usage[i].turnId == t)
    || exists i: nat :: SnapshotIn(d, p, i) && d.snapshots[i].sessionId == s && d.snapshots[i].turnId == t
  }

  ghost predicate NamesSession(d: Data, p: Option<Period>, session: string)
  {
    var s := Some(session);
    || (exists i: nat :: RecordIn(d, p, i) && d.records[i].sessionId == s)
    || (exists i: nat :: MessageIn(d, p, i) && d.messages[i].sessionId == s)
    || (exists i: nat :: ResultIn(d, p, i) && d.results[i].sessionId == s)
    || (exists i: nat :: CallIn(d, p, i) && d.calls[i].sessionId == s)
    || (exists i: nat :: OperationIn(d, p, i) && d.fileOperations[i].sessionId == s)
    || (exists i: nat :: UsageIn(d, p, i) && d.usage[i].sessionId == s)
    || exists i: nat :: SnapshotIn(d, p, i) && d.snapshots[i].sessionId == s
  }

  ghost predicate TurnShown(d: Data, p: Option<Period>, i: nat)
  {
    && i < |d.turns|
    && (|| p.None?
        || (d.turns[i].sessionId.Some? && NamesTurn(d, p, d.turns[i].sessionId.value, d.turns[i].id))
        || Touches(p.value, Told(d.turns[i].startedAt), Told(d.turns[i].completedAt)))
  }

  ghost predicate SessionTouches(d: Data, p: Option<Period>, i: nat)
  {
    && i < |d.sessions|
    && (p.None? || Touches(p.value, Told(d.sessions[i].createdAt), Told(d.sessions[i].updatedAt)))
  }

  /** A session is shown for a row in the period, for its own interval, or for a turn that is shown. */
  ghost predicate SessionShown(d: Data, p: Option<Period>, id: string)
  {
    || NamesSession(d, p, id)
    || (exists i: nat :: SessionTouches(d, p, i) && d.sessions[i].id == id)
    || exists i: nat :: TurnShown(d, p, i) && d.turns[i].sessionId == Some(id)
  }

  lemma NamedIs(stamps: seq<Stamp>, p: Option<Period>, session: string, turn: string)
    ensures session in SessionsOf(stamps, Direct(stamps, p)) <==>
            exists i: nat :: i in Direct(stamps, p) && i < |stamps| && stamps[i].sessionId == Some(session)
    ensures (session, turn) in TurnsOf(stamps, Direct(stamps, p)) <==>
            exists i: nat :: i in Direct(stamps, p) && i < |stamps| && stamps[i].sessionId == Some(session)
                             && stamps[i].turnId == Some(turn)
  {
    hide Direct;
  }

  lemma SessionNamedIs(d: Data, p: Option<Period>, session: string)
    ensures session in SessionsNamed(d, p) <==> NamesSession(d, p, session)
  {
    hide Direct, RecordIn, MessageIn, ResultIn, CallIn, OperationIn, UsageIn, SnapshotIn, RecordTimes, SessionsOf,
         EventTime, SourceTime, Parse;
    var times := RecordTimes(d.records);
    DirectIs(d, p);
    NamedIs(RecordStamps(d), p, session, "");
    NamedIs(MessageStamps(d, times), p, session, "");
    NamedIs(ResultStamps(d, times), p, session, "");
    NamedIs(CallStamps(d, times), p, session, "");
    NamedIs(EventStamps(d.fileOperations, times), p, session, "");
    NamedIs(EventStamps(d.usage, times), p, session, "");
    NamedIs(SnapshotStamps(d, times), p, session, "");
    InLists(d, p);
  }

  lemma TurnNamedIs(d: Data, p: Option<Period>, session: string, turn: string)
    ensures (session, turn) in TurnsNamed(d, p) <==> NamesTurn(d, p, session, turn)
  {
    hide Direct, RecordIn, MessageIn, ResultIn, CallIn, OperationIn, UsageIn, SnapshotIn, RecordTimes, TurnsOf,
         EventTime, SourceTime, Parse;
    var times := RecordTimes(d.records);
    DirectIs(d, p);
    NamedIs(RecordStamps(d), p, session, turn);
    NamedIs(MessageStamps(d, times), p, session, turn);
    NamedIs(ResultStamps(d, times), p, session, turn);
    NamedIs(CallStamps(d, times), p, session, turn);
    NamedIs(EventStamps(d.fileOperations, times), p, session, turn);
    NamedIs(EventStamps(d.usage, times), p, session, turn);
    NamedIs(SnapshotStamps(d, times), p, session, turn);
    InLists(d, p);
  }

  lemma InLists(d: Data, p: Option<Period>)
    ensures forall i: nat :: RecordIn(d, p, i) ==> i < |d.records|
    ensures forall i: nat :: MessageIn(d, p, i) ==> i < |d.messages|
    ensures forall i: nat :: ResultIn(d, p, i) ==> i < |d.results|
    ensures forall i: nat :: CallIn(d, p, i) ==> i < |d.calls|
    ensures forall i: nat :: OperationIn(d, p, i) ==> i < |d.fileOperations|
    ensures forall i: nat :: UsageIn(d, p, i) ==> i < |d.usage|
    ensures forall i: nat :: SnapshotIn(d, p, i) ==> i < |d.snapshots|
  {
    hide Within, RowTime, LineTime, Told;
  }

  lemma TurnsAre(d: Data, p: Option<Period>)
    ensures forall i: nat :: i in Pick(d, p).turns <==> TurnShown(d, p, i)
  {
    hide Direct, CallsOf, ResultsOf, ContextMessages, SessionHits, TurnSessions, SessionsNamed, TurnsNamed, NamesTurn,
         Intersects, Touches, RecordTimes, Parse;
    forall i: nat ensures i in Pick(d, p).turns <==> TurnShown(d, p, i) {
      if i < |d.turns| {
        if d.turns[i].sessionId.Some? {
          TurnNamedIs(d, p, d.turns[i].sessionId.value, d.turns[i].id);
        }
        if p.Some? {
          TouchesIs(p.value, Told(d.turns[i].startedAt), Told(d.turns[i].completedAt));
        }
      }
    }
  }

  lemma TurnsInRange(d: Data, p: Option<Period>)
    ensures forall i: nat :: TurnShown(d, p, i) ==> i < |d.turns|
  {
    hide NamesTurn, Touches, Told;
  }

  lemma SessionsAre(d: Data, p: Option<Period>)
    ensures forall id :: id in Pick(d, p).sessionIds <==> SessionShown(d, p, id)
  {
    hide Direct, CallsOf, ResultsOf, ContextMessages, TurnHits, SessionsNamed, TurnsNamed, NamesTurn, NamesSession,
         Intersects, Touches, RecordTimes, Parse, TurnShown;
    TurnsAre(d, p);
    forall i: nat ensures SessionTouches(d, p, i) <==> i < |d.sessions| && SessionHit(d.sessions[i], p) {
      if i < |d.sessions| && p.Some? {
        TouchesIs(p.value, Told(d.sessions[i].createdAt), Told(d.sessions[i].updatedAt));
      }
    }
    hide SessionTouches, SessionHit;
    TurnsInRange(d, p);
    forall id ensures id in Pick(d, p).sessionIds <==> SessionShown(d, p, id) {
      SessionNamedIs(d, p, id);
    }
  }

  // ---- The rows shown ----

  /** A user's message in the period brings the last assistant message before it. */
  ghost predicate MessageShown(d: Data, p: Option<Period>, i: nat)
  {
    MessageIn(d, p, i) || exists user: nat :: MessageIn(d, p, user) && LeadsLast(d, i, user)
  }

  ghost predicate CallShown(d: Data, p: Option<Period>, c: nat)
  {
    CallIn(d, p, c) || exists r: nat :: ResultIn(d, p, r) && Paired(d, c, r)
  }

  ghost predicate ResultShown(d: Data, p: Option<Period>, r: nat)
  {
    ResultIn(d, p, r) || exists c: nat :: CallIn(d, p, c) && Paired(d, c, r)
  }

  lemma RowsAre(d: Data, p: Option<Period>)
    ensures forall i: nat :: i in Pick(d, p).records <==> RecordIn(d, p, i)
    ensures forall i: nat :: i in Pick(d, p).fileOperations <==> OperationIn(d, p, i)
    ensures forall i: nat :: i in Pick(d, p).usage <==> UsageIn(d, p, i)
    ensures forall i: nat :: i in Pick(d, p).snapshots <==> SnapshotIn(d, p, i)
  {
    hide Direct, CallsOf, ResultsOf, ContextMessages, TurnHits, SessionsNamed, TurnsNamed, RecordTimes, TurnSessions,
         SessionHits, RecordIn, OperationIn, UsageIn, SnapshotIn, CallIn, MessageIn, ResultIn;
    DirectIs(d, p);
  }

  lemma MessagesAre(d: Data, p: Option<Period>)
    ensures forall i: nat :: i in Pick(d, p).messages <==> MessageShown(d, p, i)
  {
    hide Direct, CallsOf, ResultsOf, TurnHits, SessionsNamed, TurnsNamed, RecordTimes, TurnSessions, SessionHits,
         RecordIn, OperationIn, UsageIn, SnapshotIn, CallIn, MessageIn, ResultIn, IsContextFor, LeadsLast;
    var times := RecordTimes(d.records);
    DirectIs(d, p);
    forall i: nat, user: nat ensures IsContextFor(d, times, i, user) <==> LeadsLast(d, i, user) {
      ContextIs(d, i, user);
    }
    forall i: nat, user: nat | LeadsLast(d, i, user) ensures i < |d.messages| && user < |d.messages| {
      LeadsInRange(d, i, user);
    }
    InLists(d, p);
  }

  lemma LeadsInRange(d: Data, k: nat, user: nat)
    requires LeadsLast(d, k, user)
    ensures k < |d.messages| && user < |d.messages|
  {
    hide Before;
  }

  lemma CallsAre(d: Data, p: Option<Period>)
    ensures forall i: nat :: i in Pick(d, p).calls <==> CallShown(d, p, i)
    ensures forall i: nat :: i in Pick(d, p).results <==> ResultShown(d, p, i)
  {
    hide Direct, ContextMessages, TurnHits, SessionsNamed, TurnsNamed, RecordTimes, TurnSessions, SessionHits, RecordIn,
         OperationIn, UsageIn, SnapshotIn, CallIn, MessageIn, ResultIn, Correlated, Paired;
    DirectIs(d, p);
    forall c: nat, r: nat ensures Correlated(d, c, r) <==> Paired(d, c, r) {
      PairedIs(d, c, r);
    }
    forall c: nat, r: nat | Paired(d, c, r) ensures c < |d.calls| && r < |d.results| {
      PairedInRange(d, c, r);
    }
    InLists(d, p);
  }

  lemma PairedInRange(d: Data, c: nat, r: nat)
    requires Paired(d, c, r)
    ensures c < |d.calls| && r < |d.results|
  {
  }

  // ---- The output ----

  /** The elements at the positions in the set, in order, and nothing else. */
  ghost predicate IsPart<T(!new)>(part: seq<T>, all: seq<T>, shown: set<nat>)
  {
    exists at: seq<nat> ::
      && Ascending(at, |all|) && (forall i: nat :: i < |all| ==> (i in at <==> i in shown))
      && |part| == |at| && forall k :: 0 <= k < |at| ==> part[k] == all[at[k]]
  }

  lemma {:induction false} KeptAt<T(!new)>(s: seq<T>, shown: set<nat>) returns (at: seq<nat>)
    ensures Ascending(at, |s|) && (forall i: nat :: i < |s| ==> (i in at <==> i in shown))
    ensures |Kept(s, shown)| == |at| && forall k :: 0 <= k < |at| ==> Kept(s, shown)[k] == s[at[k]]
  {
    at := [];
    if s != [] {
      var n := |s| - 1;
      at := KeptAt(s[..n], shown);
      AscendingSnoc(at, n);
      InSnoc(at, n);
      hide Ascending;
      if n in shown {
        at := at + [n];
      }
    }
  }

  lemma KeptIsPart<T(!new)>(s: seq<T>, shown: set<nat>)
    ensures IsPart(Kept(s, shown), s, shown)
  {
    var at := KeptAt(s, shown);
  }

  ghost function ShownSessions(d: Data, p: Option<Period>): set<nat>
  {
    set i: nat | i < |d.sessions| && SessionShown(d, p, d.sessions[i].id)
  }

  lemma {:induction false} KeptSessionsAre(s: seq<Session>, ids: set<string>, shown: set<nat>)
    requires forall i: nat :: i < |s| ==> (i in shown <==> s[i].id in ids)
    ensures KeptSessions(s, ids) == Kept(s, shown)
  {
    if s != [] {
      KeptSessionsAre(s[..|s| - 1], ids, shown);
    }
  }

  ghost function ShownEvents(d: Data, p: Option<Period>, t: Turn): set<nat>
  {
    set i: nat | i < |t.lifecycle| && Within(p, RowTime(t.lifecycle[i].timestamp, t.lifecycle[i].provenance, d))
  }

  lemma {:induction false} KeptEventsAre(d: Data, events: seq<Lifecycle>, p: Option<Period>, shown: set<nat>)
    requires forall i: nat :: i < |events| ==>
               (i in shown <==> Within(p, RowTime(events[i].timestamp, events[i].provenance, d)))
    ensures KeptEvents(events, p, RecordTimes(d.records)) == Kept(events, shown)
  {
    hide Within, RowTime, InPeriod, EventTime, RecordTimes;
    if events != [] {
      var last := events[|events| - 1];
      KeptEventsAre(d, events[..|events| - 1], p, shown);
      RowTimeIs(last.timestamp, last.provenance, d);
      WithinIs(p, RowTime(last.timestamp, last.provenance, d));
    }
  }

  /** A turn as a report shows it: each end exactly when it lies in the period, and of its events those that do. */
  ghost predicate ShowsTurn(shown: Turn, t: Turn, d: Data, p: Option<Period>)
  {
    && shown.id == t.id && shown.sessionId == t.sessionId
    && shown.startedAt == (if Within(p, Told(t.startedAt)) then t.startedAt else None)
    && shown.completedAt == (if Within(p, Told(t.completedAt)) then t.completedAt else None)
    && IsPart(shown.lifecycle, t.lifecycle, ShownEvents(d, p, t))
  }

  lemma TrimmedShows(t: Turn, d: Data, p: Option<Period>)
    ensures ShowsTurn(Trimmed(t, p, RecordTimes(d.records)), t, d, p)
  {
    hide IsPart, RecordTimes, Within, InPeriod, RowTime, Parse, KeptEvents;
    WithinIs(p, Told(t.startedAt));
    WithinIs(p, Told(t.completedAt));
    KeptEventsAre(d, t.lifecycle, p, ShownEvents(d, p, t));
    KeptIsPart(t.lifecycle, ShownEvents(d, p, t));
    assert p.None? ==> Within(p, None) by { NoPeriodIsAll(); }
    assert p.None? ==> Within(p, Told(t.startedAt)) && Within(p, Told(t.completedAt)) by { NoPeriodIsAll(); }
  }

  lemma NoPeriodIsAll()
    ensures forall t :: Within(None, t)
  {
  }

  ghost predicate ShowsTurns(shown: seq<Turn>, d: Data, p: Option<Period>)
  {
    exists at: seq<nat> ::
      && Ascending(at, |d.turns|) && (forall i: nat :: i < |d.turns| ==> (i in at <==> TurnShown(d, p, i)))
      && |shown| == |at| && forall k :: 0 <= k < |at| ==> ShowsTurn(shown[k], d.turns[at[k]], d, p)
  }

  lemma TurnsAreShown(d: Data, p: Option<Period>)
    ensures ShowsTurns(TrimmedAll(Kept(d.turns, Pick(d, p).turns), p, RecordTimes(d.records)), d, p)
  {
    hide Pick, Kept, Trimmed, TurnShown, ShowsTurn, RecordTimes;
    TurnsAre(d, p);
    var at := KeptAt(d.turns, Pick(d, p).turns);
    assert forall k :: 0 <= k < |at| ==> at[k] < |d.turns|;
    forall k | 0 <= k < |at|
      ensures ShowsTurn(Trimmed(d.turns[at[k]], p, RecordTimes(d.records)), d.turns[at[k]], d, p)
    {
      TrimmedShows(d.turns[at[k]], d, p);
    }
  }

  ghost function ShownMessages(d: Data, p: Option<Period>): set<nat>
  {
    set i: nat | i < |d.messages| && MessageShown(d, p, i)
  }

  ghost function ShownCalls(d: Data, p: Option<Period>): set<nat>
  {
    set i: nat | i < |d.calls| && CallShown(d, p, i)
  }

  ghost function ShownResults(d: Data, p: Option<Period>): set<nat>
  {
    set i: nat | i < |d.results| && ResultShown(d, p, i)
  }

  ghost function ShownOperations(d: Data, p: Option<Period>): set<nat>
  {
    set i: nat | i < |d.fileOperations| && OperationIn(d, p, i)
  }

  ghost function ShownUsage(d: Data, p: Option<Period>): set<nat>
  {
    set i: nat | i < |d.usage| && UsageIn(d, p, i)
  }

  ghost function ShownSnapshots(d: Data, p: Option<Period>): set<nat>
  {
    set i: nat | i < |d.snapshots| && SnapshotIn(d, p, i)
  }

  ghost function RecordsIn(d: Data, p: Option<Period>): set<nat>
  {
    set i: nat | i < |d.records| && RecordIn(d, p, i)
  }

  ghost function Untimed(d: Data): set<nat>
  {
    set i: nat | i < |d.records| && Told(d.records[i].timestamp).None?
  }

  /** Records in the period, records with a time outside it, and records without a time. */
  ghost predicate Counts(t: Tally, d: Data, p: Option<Period>)
  {
    && t.included == |RecordsIn(d, p)| && t.unknown == |Untimed(d)|
    && t.excluded == if p.None? then 0 else |d.records| - t.included - t.unknown
  }

  /** Every list of the report holds, in order, exactly what is shown; the ids and counts next to it are those of it. */
  ghost predicate IsReport(d: Data, p: Option<Period>, s: Selected)
  {
    && IsPart(s.data.records, d.records, RecordsIn(d, p))
    && IsPart(s.data.sessions, d.sessions, ShownSessions(d, p))
    && IsPart(s.data.messages, d.messages, ShownMessages(d, p))
    && IsPart(s.data.calls, d.calls, ShownCalls(d, p))
    && IsPart(s.data.results, d.results, ShownResults(d, p))
    && IsPart(s.data.fileOperations, d.fileOperations, ShownOperations(d, p))
    && IsPart(s.data.usage, d.usage, ShownUsage(d, p))
    && IsPart(s.data.snapshots, d.snapshots, ShownSnapshots(d, p))
    && ShowsTurns(s.data.turns, d, p)
    && (forall id :: id in s.sessionIds <==> SessionShown(d, p, id)) && Counts(s.tally, d, p)
  }

  lemma {:induction false} KeptAlike<T>(s: seq<T>, a: set<nat>, b: set<nat>)
    requires forall i: nat :: i < |s| ==> (i in a <==> i in b)
    ensures Kept(s, a) == Kept(s, b)
  {
    if s != [] {
      KeptAlike(s[..|s| - 1], a, b);
    }
  }

  lemma KeptShows<T(!new)>(s: seq<T>, picked: set<nat>, shown: set<nat>)
    requires forall i: nat :: i < |s| ==> (i in picked <==> i in shown)
    ensures IsPart(Kept(s, picked), s, shown)
  {
    KeptAlike(s, picked, shown);
    KeptIsPart(s, shown);
  }

  lemma UntimedNext(d: Data, init: Data, last: Record)
    requires d.records == init.records + [last]
    ensures |Untimed(d)| == |Untimed(init)| + if Told(last.timestamp).None? then 1 else 0
  {
    hide Told;
    var n := |init.records|;
    assert d.records[n] == last && forall i: nat :: i < n ==> d.records[i] == init.records[i];
    forall i: nat ensures i in Untimed(d) <==> i in Untimed(init) || (i == n && Told(last.timestamp).None?) {
    }
    assert n !in Untimed(init);
    hide Untimed;
    assert Untimed(d) == if Told(last.timestamp).None? then Untimed(init) + {n} else Untimed(init);
  }

  lemma {:induction false} UntimedAreCounted(d: Data, p: Option<Period>)
    ensures TallyOf(RecordStamps(d), p).unknown == |Untimed(d)|
    decreases |d.records|
  {
    hide InPeriod, Untimed, Parse;
    var stamps := RecordStamps(d);
    if d.records != [] {
      var n := |d.records| - 1;
      var init := d.(records := d.records[..n]);
      UntimedAreCounted(init, p);
      UntimedNext(d, init, d.records[n]);
      assert RecordStamps(init) == stamps[..n];
    } else {
      assert Untimed(d) == {} by { NoneUntimed(d); }
    }
  }

  lemma NoneUntimed(d: Data)
    requires d.records == []
    ensures Untimed(d) == {}
  {
  }

  lemma TallyIs(d: Data, p: Option<Period>)
    ensures Counts(TallyOf(RecordStamps(d), p), d, p)
  {
    hide Direct, TallyOf, Within, InPeriod, Parse, MessageIn, CallIn, ResultIn, OperationIn, UsageIn, SnapshotIn,
         RecordIn;
    TallyConserves(RecordStamps(d), p);
    UntimedAreCounted(d, p);
    DirectIs(d, p);
    InLists(d, p);
    assert Direct(RecordStamps(d), p) == RecordsIn(d, p);
  }

  lemma SessionsAreShown(d: Data, p: Option<Period>)
    ensures IsPart(KeptSessions(d.sessions, Pick(d, p).sessionIds), d.sessions, ShownSessions(d, p))
  {
    hide Pick, SessionShown, IsPart;
    SessionsAre(d, p);
    KeptSessionsAre(d.sessions, Pick(d, p).sessionIds, ShownSessions(d, p));
    KeptIsPart(d.sessions, ShownSessions(d, p));
  }

  lemma ReportIs(d: Data, p: Option<Period>)
    ensures var picked := Pick(d, p);
            IsReport(d, p, Selected(OutputData(d, p, picked), TallyOf(RecordStamps(d), p), picked.sessionIds))
  {
    hide Pick, TallyOf, IsPart, RecordIn, MessageShown, CallShown, ResultShown, OperationIn, UsageIn, SnapshotIn,
         SessionShown, ShowsTurns, Counts, RecordTimes, Kept, KeptSessions, TrimmedAll, ShownSessions, RecordStamps;
    var picked := Pick(d, p);
    RowsAre(d, p);
    MessagesAre(d, p);
    CallsAre(d, p);
    KeptShows(d.records, picked.records, RecordsIn(d, p));
    KeptShows(d.messages, picked.messages, ShownMessages(d, p));
    KeptShows(d.calls, picked.calls, ShownCalls(d, p));
    KeptShows(d.results, picked.results, ShownResults(d, p));
    KeptShows(d.fileOperations, picked.fileOperations,
              ShownOperations(d, p));
    KeptShows(d.usage, picked.usage, ShownUsage(d, p));
    KeptShows(d.snapshots, picked.snapshots, ShownSnapshots(d, p));
    SessionsAreShown(d, p);
    TurnsAreShown(d, p);
    SessionsAre(d, p);
    TallyIs(d, p);
  }

  /** The selection, list by list, with the sets of sessions and turns growing along the way. */
  method SelectReportData(d: Data, p: Option<Period>) returns (selected: Selected)
    ensures IsReport(d, p, selected)
    ensures var picked := Pick(d, p);
            selected == Selected(OutputData(d, p, picked), TallyOf(RecordStamps(d), p), picked.sessionIds)
  {
    hide Direct, SessionsOf, TurnsOf, TallyOf, CallsOf, ResultsOf, ContextMessages, TurnHits, SessionHits, TurnSessions,
         RecordTimes, OutputData, IsReport;
    var times := RecordTimes(d.records);
    var records, sessions, turnKeys, tally := SelectDirect(RecordStamps(d), p, {}, {});
    sessions := SelectSessions(d, p, sessions);
    var messages, results, calls, operations, usage, snapshots, turns, counts;
    messages, sessions, turnKeys, counts := SelectDirect(MessageStamps(d, times), p, sessions, turnKeys);
    InRange(MessageStamps(d, times), p);
    var shown := AddContextMessages(d, times, messages);
    results, sessions, turnKeys, counts := SelectDirect(ResultStamps(d, times), p, sessions, turnKeys);
    calls, sessions, turnKeys, counts := SelectDirect(CallStamps(d, times), p, sessions, turnKeys);
    InRange(ResultStamps(d, times), p);
    InRange(CallStamps(d, times), p);
    var pulledCalls := PullCalls(d, results);
    var pulledResults := PullResults(d, calls);
    operations, sessions, turnKeys, counts := SelectDirect(EventStamps(d.fileOperations, times), p, sessions, turnKeys);
    usage, sessions, turnKeys, counts := SelectDirect(EventStamps(d.usage, times), p, sessions, turnKeys);
    snapshots, sessions, turnKeys, counts := SelectDirect(SnapshotStamps(d, times), p, sessions, turnKeys);
    assert turnKeys == TurnsNamed(d, p);
    turns, sessions := SelectTurns(d, p, turnKeys, sessions);
    assert sessions == Pick(d, p).sessionIds;
    var picked := Picked(records, shown, calls + pulledCalls, results + pulledResults, operations, usage, snapshots,
        turns, sessions);
    selected := Selected(OutputData(d, p, picked), tally, sessions);
    ReportIs(d, p);
  }

  // ---- Correlated rows travel together ----

  lemma ShownIsThere<T(!new)>(part: seq<T>, all: seq<T>, shown: set<nat>, i: nat)
    requires IsPart(part, all, shown) && i < |all| && i in shown
    ensures all[i] in part
  {
    var at: seq<nat> :|
      && Ascending(at, |all|) && (forall i: nat :: i < |all| ==> (i in at <==> i in shown))
      && |part| == |at| && forall k :: 0 <= k < |at| ==> part[k] == all[at[k]];
    assert i in at;
    var k :| 0 <= k < |at| && at[k] == i;
    assert part[k] == all[i];
  }

  /** The report shows both sides of a pair as soon as one is in the period. */
  lemma PairsAreShownWhole(d: Data, p: Option<Period>, s: Selected, c: nat, r: nat)
    requires IsReport(d, p, s) && Paired(d, c, r) && (CallIn(d, p, c) || ResultIn(d, p, r))
    ensures d.calls[c] in s.data.calls && d.results[r] in s.data.results
  {
    hide RecordIn, MessageShown, OperationIn, UsageIn, SnapshotIn, SessionShown, ShowsTurns, Counts, CallIn, ResultIn,
         IsPart;
    PairedInRange(d, c, r);
    hide Paired;
    assert CallShown(d, p, c) && ResultShown(d, p, r);
    hide CallShown, ResultShown;
    ShownIsThere(s.data.calls, d.calls, ShownCalls(d, p), c);
    ShownIsThere(s.data.results, d.results, ShownResults(d, p), r);
  }
}
