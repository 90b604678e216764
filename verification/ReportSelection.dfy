/** The whole selection of src/period.rs: what is picked, how it is computed, and what widening a period keeps. */
module ReportSelection {
  import opened Wrappers
  import opened Timestamps
  import opened Order
  import opened Selection
  import Correlation

  // ---- What is picked ----

  function CallContext(c: ToolCall): Context { (c.sessionId, c.turnId) }

  function ResultContext(r: ToolResult): Context { (r.sessionId, r.turnId) }

  function CallIdKeys(d: Data): seq<Option<string>>
  {
    seq(|d.calls|, i requires 0 <= i < |d.calls| => d.calls[i].callId)
  }

  function ResultIdKeys(d: Data): seq<Option<string>>
  {
    seq(|d.results|, i requires 0 <= i < |d.results| => d.results[i].callId)
  }

  function NoIdCallKeys(d: Data): seq<Option<Context>>
  {
    seq(|d.calls|, i requires 0 <= i < |d.calls| =>
      if d.calls[i].callId.None? then Some(CallContext(d.calls[i])) else None)
  }

  function NoIdResultKeys(d: Data): seq<Option<Context>>
  {
    seq(|d.results|, i requires 0 <= i < |d.results| =>
      if d.results[i].callId.None? then Some(ResultContext(d.results[i])) else None)
  }

  function OriginalNoIdResultKeys(d: Data): seq<Option<Context>>
  {
    seq(|d.results|, i requires 0 <= i < |d.results| =>
      if d.results[i].callId.None? && !d.results[i].isDuplicate then Some(ResultContext(d.results[i])) else None)
  }

  /** Without ids a pair is certain only when its context holds one call and one original result. */
  predicate Unambiguous(d: Data, context: Context)
  {
    |Positions(NoIdCallKeys(d), context)| == 1 && |Positions(OriginalNoIdResultKeys(d), context)| == 1
  }

  predicate Correlated(d: Data, c: nat, r: nat)
  {
    && c < |d.calls| && r < |d.results|
    && var call, result := d.calls[c], d.results[r];
       match (call.callId, result.callId)
       case (Some(a), Some(b)) =>
         a == b && Correlation.CompatibleContext(call.sessionId, result.sessionId)
             && Correlation.CompatibleContext(call.turnId, result.turnId)
       case (None, None) => CallContext(call) == ResultContext(result) && Unambiguous(d, CallContext(call))
       case _ => false
  }

  function CallsOf(d: Data, results: set<nat>): set<nat>
  {
    set c: nat | c < |d.calls| && CallPulled(d, c, results)
  }

  predicate CallPulled(d: Data, c: nat, results: set<nat>)
  {
    exists r :: r in results && Correlated(d, c, r)
  }

  function ResultsOf(d: Data, calls: set<nat>): set<nat>
  {
    set r: nat | r < |d.results| && ResultPulled(d, r, calls)
  }

  predicate ResultPulled(d: Data, r: nat, calls: set<nat>)
  {
    exists c :: c in calls && Correlated(d, c, r)
  }

  // ---- The message before a user message ----

  datatype Position = Position(time: Option<Timestamp>, path: Path, line: Option<nat>)

  function PositionOf(m: Message, times: Times): Position
  {
    Position(EventTime(m.timestamp, m.provenance, times), m.provenance.path, m.provenance.line)
  }

  /** Missing values come first, as in the derived order of optional values. */
  predicate PositionLess(a: Position, b: Position)
  {
    if a.time != b.time then a.time.None? || (b.time.Some? && Less(a.time.value, b.time.value))
    else if a.path != b.path then PathLess(a.path, b.path)
    else a.line != b.line && (a.line.None? || (b.line.Some? && a.line.value < b.line.value))
  }

  predicate Precedes(d: Data, times: Times, k: nat, user: nat)
    requires k < |d.messages| && user < |d.messages|
  {
    && d.messages[k].role == Some(Assistant)
    && d.messages[k].sessionId == d.messages[user].sessionId
    && PositionLess(PositionOf(d.messages[k], times), PositionOf(d.messages[user], times))
  }

  /** The last of the greatest candidates among the first n messages. */
  function Preceding(d: Data, times: Times, user: nat, n: nat): Option<nat>
    requires user < |d.messages| && n <= |d.messages|
  {
    if n == 0 then None
    else
      var best := Preceding(d, times, user, n - 1);
      if Precedes(d, times, n - 1, user)
         && (best.None? || best.value >= |d.messages|
             || !PositionLess(PositionOf(d.messages[n - 1], times), PositionOf(d.messages[best.value], times)))
      then Some(n - 1)
      else best
  }

  lemma PositionOrder()
    ensures StrictTotal(PositionLess)
  {
    PathOrder();
    forall a, b, c | PositionLess(a, b) && PositionLess(b, c) ensures PositionLess(a, c) {
    }
    forall a, b ensures PositionLess(a, b) || a == b || PositionLess(b, a) {
      if a.time == b.time && a.path == b.path && a.line == b.line {
        assert a == b;
      }
    }
  }

  /** The context message is an assistant message of the same session before the user message, and none is later. */
  lemma {:induction false} PrecedingIsLatest(d: Data, times: Times, user: nat, n: nat)
    requires user < |d.messages| && n <= |d.messages|
    ensures var best := Preceding(d, times, user, n);
            && (best.Some? ==>
                  && best.value < n && Precedes(d, times, best.value, user)
                  && forall k: nat :: k < n && Precedes(d, times, k, user) ==>
                       !PositionLess(PositionOf(d.messages[best.value], times), PositionOf(d.messages[k], times)))
            && (best.None? ==> forall k: nat :: k < n ==> !Precedes(d, times, k, user))
  {
    if n > 0 {
      hide Precedes, PositionLess, PositionOf;
      PositionOrder();
      PrecedingIsLatest(d, times, user, n - 1);
      var before, best := Preceding(d, times, user, n - 1), Preceding(d, times, user, n);
      if best != before && before.Some? {
        LaterIsLatest(PositionLess, PositionOf(d.messages[before.value], times), PositionOf(d.messages[n - 1], times));
      }
    }
  }

  lemma LaterIsLatest<T(!new)>(less: (T, T) -> bool, a: T, b: T)
    requires StrictTotal(less) && !less(b, a)
    ensures forall x :: !less(a, x) ==> !less(b, x)
  {
  }

  function ContextMessages(d: Data, times: Times, direct: set<nat>): set<nat>
  {
    set k: nat | k < |d.messages| && GivesContext(d, times, k, direct)
  }

  predicate GivesContext(d: Data, times: Times, k: nat, direct: set<nat>)
  {
    exists u :: u in direct && IsContextFor(d, times, k, u)
  }

  predicate IsContextFor(d: Data, times: Times, k: nat, u: nat)
  {
    u < |d.messages| && d.messages[u].role == Some(User) && Preceding(d, times, u, |d.messages|) == Some(k)
  }

  // ---- Sessions and turns ----

  function SessionHits(d: Data, p: Option<Period>): set<string>
  {
    set i: nat | i < |d.sessions| && SessionHit(d.sessions[i], p) :: d.sessions[i].id
  }

  predicate SessionHit(s: Session, p: Option<Period>)
  {
    p.None? || Intersects(p.value, ParseOption(s.createdAt), ParseOption(s.updatedAt))
  }

  predicate TurnHit(t: Turn, p: Option<Period>, named: set<TurnKey>)
  {
    || p.None?
    || (t.sessionId.Some? && (t.sessionId.value, t.id) in named)
    || Intersects(p.value, ParseOption(t.startedAt), ParseOption(t.completedAt))
  }

  function TurnHits(d: Data, p: Option<Period>, named: set<TurnKey>): set<nat>
  {
    set i: nat | i < |d.turns| && TurnHit(d.turns[i], p, named)
  }

  function TurnSessions(d: Data, turns: set<nat>): set<string>
  {
    set i: nat | i in turns && i < |d.turns| && d.turns[i].sessionId.Some? :: d.turns[i].sessionId.value
  }

  datatype Picked = Picked(
    records: set<nat>, messages: set<nat>, calls: set<nat>, results: set<nat>, fileOperations: set<nat>,
    usage: set<nat>, snapshots: set<nat>, turns: set<nat>, sessionIds: set<string>)

  /** The sessions of the rows that are themselves inside the period. */
  function SessionsNamed(d: Data, p: Option<Period>): set<string>
  {
    var times := RecordTimes(d.records);
    SessionsOf(RecordStamps(d), Direct(RecordStamps(d), p))
    + SessionsOf(MessageStamps(d, times), Direct(MessageStamps(d, times), p))
    + SessionsOf(ResultStamps(d, times), Direct(ResultStamps(d, times), p))
    + SessionsOf(CallStamps(d, times), Direct(CallStamps(d, times), p))
    + SessionsOf(EventStamps(d.fileOperations, times), Direct(EventStamps(d.fileOperations, times), p))
    + SessionsOf(EventStamps(d.usage, times), Direct(EventStamps(d.usage, times), p))
    + SessionsOf(SnapshotStamps(d, times), Direct(SnapshotStamps(d, times), p))
  }

  function TurnsNamed(d: Data, p: Option<Period>): set<TurnKey>
  {
    var times := RecordTimes(d.records);
    TurnsOf(RecordStamps(d), Direct(RecordStamps(d), p))
    + TurnsOf(MessageStamps(d, times), Direct(MessageStamps(d, times), p))
    + TurnsOf(ResultStamps(d, times), Direct(ResultStamps(d, times), p))
    + TurnsOf(CallStamps(d, times), Direct(CallStamps(d, times), p))
    + TurnsOf(EventStamps(d.fileOperations, times), Direct(EventStamps(d.fileOperations, times), p))
    + TurnsOf(EventStamps(d.usage, times), Direct(EventStamps(d.usage, times), p))
    + TurnsOf(SnapshotStamps(d, times), Direct(SnapshotStamps(d, times), p))
  }

  function Pick(d: Data, p: Option<Period>): Picked
  {
    var times := RecordTimes(d.records);
    var messages := Direct(MessageStamps(d, times), p);
    var results := Direct(ResultStamps(d, times), p);
    var calls := Direct(CallStamps(d, times), p);
    var turns := TurnHits(d, p, TurnsNamed(d, p));
    Picked(
      Direct(RecordStamps(d), p),
      messages + ContextMessages(d, times, messages),
      calls + CallsOf(d, results),
      results + ResultsOf(d, calls),
      Direct(EventStamps(d.fileOperations, times), p),
      Direct(EventStamps(d.usage, times), p),
      Direct(SnapshotStamps(d, times), p),
      turns,
      SessionsNamed(d, p) + SessionHits(d, p) + TurnSessions(d, turns))
  }

  // ---- Widening ----

  lemma DirectWidens(stamps: seq<Stamp>, p: Option<Period>, q: Option<Period>)
    requires Wider(p, q)
    ensures Direct(stamps, p) <= Direct(stamps, q)
    ensures SessionsOf(stamps, Direct(stamps, p)) <= SessionsOf(stamps, Direct(stamps, q))
    ensures TurnsOf(stamps, Direct(stamps, p)) <= TurnsOf(stamps, Direct(stamps, q))
  {
    forall i | i in Direct(stamps, p) ensures i in Direct(stamps, q) {
      WiderKeeps(p, q, stamps[i].time, None);
    }
    NamedGrows(stamps, Direct(stamps, p), Direct(stamps, q));
  }

  lemma NamedGrows(stamps: seq<Stamp>, a: set<nat>, b: set<nat>)
    requires a <= b
    ensures SessionsOf(stamps, a) <= SessionsOf(stamps, b) && TurnsOf(stamps, a) <= TurnsOf(stamps, b)
  {
  }

  lemma CorrelationWidens(d: Data, a: set<nat>, b: set<nat>)
    requires a <= b
    ensures CallsOf(d, a) <= CallsOf(d, b) && ResultsOf(d, a) <= ResultsOf(d, b)
  {
    hide Correlated;
  }

  lemma ContextWidens(d: Data, times: Times, a: set<nat>, b: set<nat>)
    requires a <= b
    ensures ContextMessages(d, times, a) <= ContextMessages(d, times, b)
  {
    hide IsContextFor;
  }

  lemma HitsWiden(d: Data, p: Option<Period>, q: Option<Period>)
    requires Wider(p, q)
    ensures SessionHits(d, p) <= SessionHits(d, q)
  {
    hide Intersects, Wider, ParseOption;
    forall i: nat | i < |d.sessions| && SessionHit(d.sessions[i], p) ensures SessionHit(d.sessions[i], q) {
      if p.Some? && q.Some? {
        WiderKeeps(p, q, ParseOption(d.sessions[i].createdAt), ParseOption(d.sessions[i].updatedAt));
      }
      assert p.None? ==> q.None? by { NoPeriodIsWidest(p, q); }
    }
  }

  lemma NoPeriodIsWidest(p: Option<Period>, q: Option<Period>)
    requires Wider(p, q)
    ensures p.None? ==> q.None?
  {
  }

  lemma TurnHitsWiden(d: Data, p: Option<Period>, q: Option<Period>, a: set<TurnKey>, b: set<TurnKey>)
    requires Wider(p, q) && a <= b
    ensures TurnHits(d, p, a) <= TurnHits(d, q, b)
  {
    hide Intersects, Wider, ParseOption;
    NoPeriodIsWidest(p, q);
    forall i: nat | i < |d.turns| && TurnHit(d.turns[i], p, a) ensures TurnHit(d.turns[i], q, b) {
      if p.Some? && q.Some? {
        WiderKeeps(p, q, ParseOption(d.turns[i].startedAt), ParseOption(d.turns[i].completedAt));
      }
    }
  }

  ghost predicate PickedWithin(a: Picked, b: Picked)
  {
    && a.records <= b.records && a.messages <= b.messages && a.calls <= b.calls && a.results <= b.results
    && a.fileOperations <= b.fileOperations && a.usage <= b.usage && a.snapshots <= b.snapshots
    && a.turns <= b.turns && a.sessionIds <= b.sessionIds
  }

  /** Widening the reporting period never drops a row, a turn or a session, correlated and context rows included. */
  lemma WideningKeepsSelection(d: Data, p: Option<Period>, q: Option<Period>)
    requires Wider(p, q)
    ensures PickedWithin(Pick(d, p), Pick(d, q))
  {
    hide Direct, CallsOf, ResultsOf, ContextMessages, TurnHits, SessionHits, TurnSessions, SessionsOf, TurnsOf, Wider,
         RecordTimes;
    var times := RecordTimes(d.records);
    DirectWidens(RecordStamps(d), p, q);
    DirectWidens(MessageStamps(d, times), p, q);
    DirectWidens(ResultStamps(d, times), p, q);
    DirectWidens(CallStamps(d, times), p, q);
    DirectWidens(EventStamps(d.fileOperations, times), p, q);
    DirectWidens(EventStamps(d.usage, times), p, q);
    DirectWidens(SnapshotStamps(d, times), p, q);
    CorrelationWidens(d, Direct(ResultStamps(d, times), p), Direct(ResultStamps(d, times), q));
    CorrelationWidens(d, Direct(CallStamps(d, times), p), Direct(CallStamps(d, times), q));
    ContextWidens(d, times, Direct(MessageStamps(d, times), p), Direct(MessageStamps(d, times), q));
    HitsWiden(d, p, q);
    TurnHitsWiden(d, p, q, TurnsNamed(d, p), TurnsNamed(d, q));
    TurnSessionsGrow(d, TurnHits(d, p, TurnsNamed(d, p)), TurnHits(d, q, TurnsNamed(d, q)));
  }

  lemma TurnSessionsGrow(d: Data, a: set<nat>, b: set<nat>)
    requires a <= b
    ensures TurnSessions(d, a) <= TurnSessions(d, b)
  {
  }

  // ---- Computing the selection ----

  method FindPreceding(d: Data, times: Times, user: nat) returns (best: Option<nat>)
    requires user < |d.messages|
    ensures best == Preceding(d, times, user, |d.messages|)
  {
    hide Precedes, PositionLess, PositionOf;
    best := None;
    for k := 0 to |d.messages|
      invariant best == Preceding(d, times, user, k)
      invariant best.Some? ==> best.value < k
    {
      if Precedes(d, times, k, user) {
        if best.None?
           || !PositionLess(PositionOf(d.messages[k], times), PositionOf(d.messages[best.value], times)) {
          best := Some(k);
        }
      }
    }
  }

  method AddContextMessages(d: Data, times: Times, direct: set<nat>) returns (messages: set<nat>)
    requires forall u :: u in direct ==> u < |d.messages|
    ensures messages == direct + ContextMessages(d, times, direct)
  {
    hide Preceding;
    messages := direct;
    var todo := direct;
    ghost var done: set<nat> := {};
    assert ContextMessages(d, times, {}) == {};
    while todo != {}
      invariant todo + done == direct && todo !! done
      invariant messages == direct + ContextMessages(d, times, done)
      decreases todo
    {
      var u :| u in todo;
      todo := todo - {u};
      ContextOfOneMore(d, times, done, u);
      done := done + {u};
      if d.messages[u].role == Some(User) {
        var best := FindPreceding(d, times, u);
        if best.Some? {
          messages := messages + {best.value};
        }
      }
    }
  }

  lemma ContextOfOneMore(d: Data, times: Times, done: set<nat>, u: nat)
    requires u < |d.messages|
    ensures ContextMessages(d, times, done + {u}) == ContextMessages(d, times, done) +
              (if d.messages[u].role == Some(User) && Preceding(d, times, u, |d.messages|).Some?
               then {Preceding(d, times, u, |d.messages|).value} else {})
  {
    PrecedingIsLatest(d, times, u, |d.messages|);
    hide Preceding;
    var before, after := ContextMessages(d, times, done), ContextMessages(d, times, done + {u});
    assert forall k :: GivesContext(d, times, k, done + {u}) <==>
        GivesContext(d, times, k, done) || IsContextFor(d, times, k, u) by {
      assert forall v :: v in done + {u} <==> v in done || v == u;
      forall k | GivesContext(d, times, k, done) ensures GivesContext(d, times, k, done + {u}) {
        var v :| v in done && IsContextFor(d, times, k, v);
        assert v in done + {u};
      }
    }
  }

  /** The lookups the correlation is made from, each built in one pass. */
  method PullCalls(d: Data, direct: set<nat>) returns (calls: set<nat>)
    requires forall r :: r in direct ==> r < |d.results|
    ensures calls == CallsOf(d, direct)
  {
    hide Positions, Correlated;
    var byId := GroupBy(CallIdKeys(d));
    var byContext := GroupBy(NoIdCallKeys(d));
    var originals := GroupBy(OriginalNoIdResultKeys(d));
    calls := {};
    var todo := direct;
    ghost var done: set<nat> := {};
    while todo != {}
      invariant todo + done == direct && todo !! done
      invariant calls == CallsOf(d, done)
      decreases todo
    {
      var r :| r in todo;
      todo := todo - {r};
      CallsOfOneMore(d, done, r);
      done := done + {r};
      var result := d.results[r];
      if result.callId.Some? {
        CallsById(d, r);
        if result.callId.value in byId {
          var compatible := set c: nat | c in byId[result.callId.value] && c < |d.calls|
            && Correlation.CompatibleContext(d.calls[c].sessionId, result.sessionId)
            && Correlation.CompatibleContext(d.calls[c].turnId, result.turnId);
          calls := calls + compatible;
        }
      } else {
        CallsByContext(d, r);
        var context := ResultContext(result);
        if context in byContext && |byContext[context]| == 1 && context in originals && |originals[context]| == 1 {
          calls := calls + {byContext[context][0]};
        }
      }
    }
  }

  lemma CallsOfOneMore(d: Data, done: set<nat>, r: nat)
    ensures CallsOf(d, done + {r}) == CallsOf(d, done) + CallsOf(d, {r})
    ensures CallsOf(d, {r}) == set c: nat | c < |d.calls| && Correlated(d, c, r)
    ensures CallsOf(d, {}) == {}
  {
    hide Correlated;
    forall c | CallPulled(d, c, done + {r}) ensures CallPulled(d, c, done) || CallPulled(d, c, {r}) {
      var x :| x in done + {r} && Correlated(d, c, x);
      assert x in done || x in {r};
    }
    forall c | CallPulled(d, c, done) || CallPulled(d, c, {r}) ensures CallPulled(d, c, done + {r}) {
      if CallPulled(d, c, done) {
        var x :| x in done && Correlated(d, c, x);
        assert x in done + {r};
      } else {
        assert r in done + {r};
      }
    }
    forall c | Correlated(d, c, r) ensures CallPulled(d, c, {r}) {
      assert r in {r};
    }
  }

  lemma CallsById(d: Data, r: nat)
    requires r < |d.results| && d.results[r].callId.Some?
    ensures var result := d.results[r];
            CallsOf(d, {r}) == set c: nat | c in Positions(CallIdKeys(d), result.callId.value) && c < |d.calls|
              && Correlation.CompatibleContext(d.calls[c].sessionId, result.sessionId)
              && Correlation.CompatibleContext(d.calls[c].turnId, result.turnId)
  {
    CallsOfOneMore(d, {}, r);
    PositionsAre(CallIdKeys(d), d.results[r].callId.value);
    hide Positions, Correlation.CompatibleContext, CallsOf;
  }

  lemma CallsByContext(d: Data, r: nat)
    requires r < |d.results| && d.results[r].callId.None?
    ensures var context := ResultContext(d.results[r]);
            CallsOf(d, {r}) ==
              if Unambiguous(d, context) then {Positions(NoIdCallKeys(d), context)[0]} else {}
  {
    var context := ResultContext(d.results[r]);
    CallsOfOneMore(d, {}, r);
    PositionsAre(NoIdCallKeys(d), context);
    hide Positions, CallsOf;
    if Unambiguous(d, context) {
      var only := Positions(NoIdCallKeys(d), context)[0];
      assert only in Positions(NoIdCallKeys(d), context);
      forall c: nat | c < |d.calls| && Correlated(d, c, r) ensures c == only {
        assert c in Positions(NoIdCallKeys(d), context);
      }
      assert Correlated(d, only, r);
    }
  }

  method PullResults(d: Data, direct: set<nat>) returns (results: set<nat>)
    requires forall c :: c in direct ==> c < |d.calls|
    ensures results == ResultsOf(d, direct)
  {
    hide Positions, Correlated;
    var byId := GroupBy(ResultIdKeys(d));
    var callsByContext := GroupBy(NoIdCallKeys(d));
    var byContext := GroupBy(NoIdResultKeys(d));
    var originals := GroupBy(OriginalNoIdResultKeys(d));
    results := {};
    var todo := direct;
    ghost var done: set<nat> := {};
    while todo != {}
      invariant todo + done == direct && todo !! done
      invariant results == ResultsOf(d, done)
      decreases todo
    {
      var c :| c in todo;
      todo := todo - {c};
      ResultsOfOneMore(d, done, c);
      done := done + {c};
      var call := d.calls[c];
      if call.callId.Some? {
        ResultsById(d, c);
        if call.callId.value in byId {
          var compatible := set r: nat | r in byId[call.callId.value] && r < |d.results|
            && Correlation.CompatibleContext(call.sessionId, d.results[r].sessionId)
            && Correlation.CompatibleContext(call.turnId, d.results[r].turnId);
          results := results + compatible;
        }
      } else {
        ResultsByContext(d, c);
        var context := CallContext(call);
        if context in callsByContext && |callsByContext[context]| == 1 && context in originals
            && |originals[context]| == 1 {
          if context in byContext {
            results := results + set r | r in byContext[context];
          }
        }
      }
    }
  }

  lemma ResultsOfOneMore(d: Data, done: set<nat>, c: nat)
    ensures ResultsOf(d, done + {c}) == ResultsOf(d, done) + ResultsOf(d, {c})
    ensures ResultsOf(d, {c}) == set r: nat | r < |d.results| && Correlated(d, c, r)
    ensures ResultsOf(d, {}) == {}
  {
    hide Correlated;
    forall r | ResultPulled(d, r, done + {c}) ensures ResultPulled(d, r, done) || ResultPulled(d, r, {c}) {
      var x :| x in done + {c} && Correlated(d, x, r);
      assert x in done || x in {c};
    }
    forall r | ResultPulled(d, r, done) || ResultPulled(d, r, {c}) ensures ResultPulled(d, r, done + {c}) {
      if ResultPulled(d, r, done) {
        var x :| x in done && Correlated(d, x, r);
        assert x in done + {c};
      } else {
        assert c in done + {c};
      }
    }
    forall r | Correlated(d, c, r) ensures ResultPulled(d, r, {c}) {
      assert c in {c};
    }
  }

  lemma ResultsById(d: Data, c: nat)
    requires c < |d.calls| && d.calls[c].callId.Some?
    ensures var call := d.calls[c];
            ResultsOf(d, {c}) == set r: nat | r in Positions(ResultIdKeys(d), call.callId.value) && r < |d.results|
              && Correlation.CompatibleContext(call.sessionId, d.results[r].sessionId)
              && Correlation.CompatibleContext(call.turnId, d.results[r].turnId)
  {
    ResultsOfOneMore(d, {}, c);
    PositionsAre(ResultIdKeys(d), d.calls[c].callId.value);
    hide Positions, Correlation.CompatibleContext, ResultsOf;
  }

  lemma ResultsByContext(d: Data, c: nat)
    requires c < |d.calls| && d.calls[c].callId.None?
    ensures var context := CallContext(d.calls[c]);
            ResultsOf(d, {c}) ==
              if Unambiguous(d, context) then (set r | r in Positions(NoIdResultKeys(d), context)) else {}
  {
    var context := CallContext(d.calls[c]);
    ResultsOfOneMore(d, {}, c);
    PositionsAre(NoIdResultKeys(d), context);
    hide Positions, ResultsOf;
  }

  method SelectTurns(d: Data, p: Option<Period>, named: set<TurnKey>, sessions0: set<string>)
    returns (turns: set<nat>, sessions: set<string>)
    ensures turns == TurnHits(d, p, named)
    ensures sessions == sessions0 + TurnSessions(d, turns)
  {
    hide TurnHit;
    turns, sessions := {}, sessions0;
    for i := 0 to |d.turns|
      invariant turns == set k: nat | k < i && TurnHit(d.turns[k], p, named)
      invariant sessions == sessions0 + TurnSessions(d, turns)
    {
      if TurnHit(d.turns[i], p, named) {
        TurnSessionsOfOneMore(d, turns, i);
        turns := turns + {i};
        if d.turns[i].sessionId.Some? {
          sessions := sessions + {d.turns[i].sessionId.value};
        }
      }
    }
  }

  lemma TurnSessionsOfOneMore(d: Data, turns: set<nat>, i: nat)
    requires i < |d.turns|
    ensures TurnSessions(d, turns + {i}) ==
            TurnSessions(d, turns) + if d.turns[i].sessionId.Some? then {d.turns[i].sessionId.value} else {}
  {
    assert i in turns + {i};
    forall x | x in TurnSessions(d, turns) ensures x in TurnSessions(d, turns + {i}) {
      var k: nat :| k in turns && k < |d.turns| && d.turns[k].sessionId.Some? && d.turns[k].sessionId.value == x;
      assert k in turns + {i};
    }
    if d.turns[i].sessionId.Some? {
      assert d.turns[i].sessionId.value in TurnSessions(d, turns + {i});
    }
  }

  method SelectSessions(d: Data, p: Option<Period>, sessions0: set<string>) returns (sessions: set<string>)
    ensures sessions == sessions0 + SessionHits(d, p)
  {
    hide SessionHit;
    sessions := sessions0;
    for i := 0 to |d.sessions|
      invariant sessions == sessions0 + set k: nat | k < i && SessionHit(d.sessions[k], p) :: d.sessions[k].id
    {
      if SessionHit(d.sessions[i], p) {
        sessions := sessions + {d.sessions[i].id};
      }
    }
  }

  // ---- The selected data ----

  function Kept<T>(s: seq<T>, indices: set<nat>): seq<T>
  {
    if s == [] then []
    else Kept(s[..|s| - 1], indices) + if |s| - 1 in indices then [s[|s| - 1]] else []
  }

  function KeptSessions(s: seq<Session>, ids: set<string>): seq<Session>
  {
    if s == [] then []
    else KeptSessions(s[..|s| - 1], ids) + if s[|s| - 1].id in ids then [s[|s| - 1]] else []
  }

  /** The lifecycle events that lie in the period. */
  function KeptEvents(events: seq<Lifecycle>, p: Option<Period>, times: Times): seq<Lifecycle>
  {
    if events == [] then []
    else
      var last := events[|events| - 1];
      KeptEvents(events[..|events| - 1], p, times)
      + if InPeriod(p, EventTime(last.timestamp, last.provenance, times)) then [last] else []
  }

  /** A selected turn shows only those of its ends and events that lie in the period. */
  function Trimmed(t: Turn, p: Option<Period>, times: Times): Turn
  {
    t.(startedAt := if InPeriodText(t.startedAt, p) then t.startedAt else None,
       completedAt := if InPeriodText(t.completedAt, p) then t.completedAt else None,
       lifecycle := KeptEvents(t.lifecycle, p, times))
  }

  predicate InPeriodText(text: Option<string>, p: Option<Period>)
  {
    p.None? || InPeriod(p, ParseOption(text))
  }

  function TrimmedAll(turns: seq<Turn>, p: Option<Period>, times: Times): seq<Turn>
  {
    seq(|turns|, i requires 0 <= i < |turns| => Trimmed(turns[i], p, times))
  }

  datatype Selected = Selected(data: Data, tally: Tally, sessionIds: set<string>)

  function OutputData(d: Data, p: Option<Period>, picked: Picked): Data
  {
    Data(
      Kept(d.records, picked.records), KeptSessions(d.sessions, picked.sessionIds), Kept(d.messages, picked.messages),
      Kept(d.calls, picked.calls), Kept(d.results, picked.results), Kept(d.fileOperations, picked.fileOperations),
      Kept(d.usage, picked.usage), Kept(d.snapshots, picked.snapshots),
      TrimmedAll(Kept(d.turns, picked.turns), p, RecordTimes(d.records)))
  }

  lemma InRange(stamps: seq<Stamp>, p: Option<Period>)
    ensures forall i :: i in Direct(stamps, p) ==> i < |stamps|
  {
  }

  lemma {:induction false} KeptGrows<T>(s: seq<T>, a: set<nat>, b: set<nat>)
    requires a <= b
    ensures multiset(Kept(s, a)) <= multiset(Kept(s, b))
  {
    if s != [] {
      KeptGrows(s[..|s| - 1], a, b);
    }
  }

  lemma {:induction false} KeptSessionsGrow(s: seq<Session>, a: set<string>, b: set<string>)
    requires a <= b
    ensures multiset(KeptSessions(s, a)) <= multiset(KeptSessions(s, b))
  {
    if s != [] {
      KeptSessionsGrow(s[..|s| - 1], a, b);
    }
  }

  /** What a wider report shows contains what the narrower one shows, list by list. */
  lemma WideningKeepsData(d: Data, p: Option<Period>, q: Option<Period>)
    requires Wider(p, q)
    ensures var a, b := OutputData(d, p, Pick(d, p)), OutputData(d, q, Pick(d, q));
            && multiset(a.records) <= multiset(b.records) && multiset(a.sessions) <= multiset(b.sessions)
            && multiset(a.messages) <= multiset(b.messages) && multiset(a.calls) <= multiset(b.calls)
            && multiset(a.results) <= multiset(b.results) && multiset(a.fileOperations) <= multiset(b.fileOperations)
            && multiset(a.usage) <= multiset(b.usage) && multiset(a.snapshots) <= multiset(b.snapshots)
  {
    hide Pick, Kept, KeptSessions, Wider;
    WideningKeepsSelection(d, p, q);
    var a, b := Pick(d, p), Pick(d, q);
    KeptGrows(d.records, a.records, b.records);
    KeptSessionsGrow(d.sessions, a.sessionIds, b.sessionIds);
    KeptGrows(d.messages, a.messages, b.messages);
    KeptGrows(d.calls, a.calls, b.calls);
    KeptGrows(d.results, a.results, b.results);
    KeptGrows(d.fileOperations, a.fileOperations, b.fileOperations);
    KeptGrows(d.usage, a.usage, b.usage);
    KeptGrows(d.snapshots, a.snapshots, b.snapshots);
  }
}
