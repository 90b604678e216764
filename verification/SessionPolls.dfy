/** A log normalised poll by poll against the same log normalised at once, src/monitor.rs and src/normalize.rs. */
module SessionPolls {
  import opened Wrappers
  import opened Slices
  import opened Sessions
  import opened SessionReferences

  // ---- Polls ----

  /** What the monitor carries to its next poll, and the rows the store holds for its log; turns are left out. */
  datatype Polled = Polled(context: Option<Context>, stored: Data, count: nat)

  /** A run takes the path of its log from its first record. */
  function PathOf(path: string, records: seq<Record>): Option<string>
  {
    if records == [] then None else Some(path)
  }

  /** Sessions of the state database are looked at in the first poll only. */
  function PollAround(s: Polled, around: Surroundings): Surroundings
  {
    if s.context.None? then around else around.(state := [])
  }

  function PollContext(s: Polled): Context
  {
    if s.context.None? then Context(None, None) else s.context.value
  }

  function PollStart(s: Polled, records: seq<Record>, path: string, around: Surroundings): Progress
  {
    Start(PathOf(path, records), PollContext(s), PollAround(s, around))
  }

  /** The run of one poll up to its record n. */
  function PollFirst(s: Polled, records: seq<Record>, n: nat, path: string, around: Surroundings): Progress
    requires n <= |records|
  {
    RunFirst(PollStart(s, records, path, around), records, n, s.count, PollAround(s, around))
  }

  function PollRun(s: Polled, records: seq<Record>, path: string, around: Surroundings): Progress
  {
    Run(PathOf(path, records), records, PollContext(s), s.count, PollAround(s, around))
  }

  /** Where the store renames the rows of a carried state session to: the first other session the poll's log names. */
  function RekeyTarget(s: Polled, sessions: map<string, Session>): Option<string>
  {
    var carried := PollContext(s).session;
    if carried.None? || carried.value.kind != State then None
    else
      var own := set k | k in sessions && k != carried.value.id && sessions[k].kind == Rollout;
      if own == {} then None else Some(Least(own))
  }

  function Rekeyed(s: Polled, sessions: map<string, Session>): Data
  {
    var target := RekeyTarget(s, sessions);
    if target.None? then s.stored else RenamedData(s.stored, PollContext(s).session.value.id, target.value)
  }

  function Appended(stored: Data, more: Data): Data
  {
    Data(stored.turns, stored.records + more.records, stored.messages + more.messages, stored.calls + more.calls,
         stored.results + more.results, stored.usage + more.usage, stored.snapshots + more.snapshots)
  }

  function NextPoll(s: Polled, records: seq<Record>, path: string, around: Surroundings): Polled
  {
    var run := PollRun(s, records, path, around);
    Polled(Some(HandOver(run)), Appended(Rekeyed(s, run.sessions), run.data), s.count + |records|)
  }

  function AllPolled(polls: seq<seq<Record>>, path: string, around: Surroundings): Polled
  {
    if polls == [] then Polled(None, NO_DATA, 0)
    else NextPoll(AllPolled(polls[..|polls| - 1], path, around), polls[|polls| - 1], path, around)
  }

  // ---- The same records at once ----

  /** The run over all records, before repeated usage rows are dropped. */
  function Whole(records: seq<Record>, path: string, around: Surroundings): Progress
  {
    RunFirst(Start(Some(path), Context(None, None), around), records, |records|, 0, around)
  }

  function Batch(records: seq<Record>, path: string, around: Surroundings): Progress
  {
    Run(PathOf(path, records), records, Context(None, None), 0, around)
  }

  // ---- The sessions of a run's rows ----

  ghost predicate AllFromLog(records: seq<Record>)
  {
    forall i :: 0 <= i < |records| ==> FromLog(records[i])
  }

  ghost predicate Known(p: Progress)
  {
    Keyed(p.sessions) && (p.current.Some? ==> p.current.value in p.sessions)
  }

  /** While a state session is the current one, all rows name it. */
  ghost predicate NamedByFallback(p: Progress)
  {
    IsStateFallback(p) ==> forall k :: 0 <= k < |p.data.records| ==> p.data.records[k].session == p.current
  }

  /** The session that the first metadata among the next n records leads to. */
  function FirstSession(p: Progress, records: seq<Record>, n: nat, base: nat, around: Surroundings): Option<string>
    requires n <= |records|
  {
    if n == 0 then None
    else
      var before := FirstSession(p, records, n - 1, base, around);
      if before.Some? then before
      else if BringsSession(records[n - 1]) then RunFirst(p, records, n, base, around).current
      else None
  }

  lemma TakeNames(p: Progress, record: Record, sequence: nat, around: Surroundings)
    requires Known(p) && NamedByFallback(p) && FromLog(record)
    ensures var q, n := Take(p, record, sequence, around), |p.data.records|;
            && Known(q) && NamedByFallback(q) && |q.data.records| == n + 1
            && q.data.records[n].session == q.current && q.data.records[n].sequence == sequence
            && IsStateFallback(q) == (IsStateFallback(p) && !BringsSession(record))
            && (if BringsSession(record) then q.current.Some? && q.sessions[q.current.value].kind == Rollout
                else q.current == p.current && q.sessions == p.sessions)
            && forall k :: 0 <= k < n ==>
                 q.data.records[k] == if BringsSession(record) && IsStateFallback(p)
                                      then p.data.records[k].(session := q.current) else p.data.records[k]
  {
    hide MergeRolloutSession, Merged, RenamedParents, AddOrUpdateTurn, AddLifecycle;
    if BringsSession(record) {
      var candidate := record.kind.candidate.value;
      MergeKeepsSessions(p.sessions, candidate, around);
      if p.current.Some? {
        ParentsKeepKeys(MergeRolloutSession(p.sessions, candidate, around), p.current.value,
                        Merged(p.sessions, candidate, around).id);
      }
    } else if record.kind.EventMessage? {
      EventKeepsRecords(p, record, sequence);
    }
  }

  lemma EventKeepsRecords(p: Progress, record: Record, sequence: nat)
    requires record.kind.EventMessage?
    ensures var q := TakeEvent(p, record, sequence);
            q.data.records == p.data.records && q.current == p.current && q.sessions == p.sessions
  {
    hide AddLifecycle;
  }

  /** The session named by the row of the k-th of n records. */
  function NameOf(p: Progress, records: seq<Record>, n: nat, k: nat, base: nat, around: Surroundings): Option<string>
    requires k < n <= |records|
  {
    var first := FirstSession(p, records, n, base, around);
    if IsStateFallback(p) && first.Some? && FirstSession(p, records, k + 1, base, around).None? then first
    else RunFirst(p, records, k + 1, base, around).current
  }

  lemma {:induction false} FirstStays(p: Progress, records: seq<Record>, n: nat, k: nat, base: nat,
                                      around: Surroundings)
    requires k <= n <= |records| && FirstSession(p, records, k, base, around).Some?
    ensures FirstSession(p, records, n, base, around) == FirstSession(p, records, k, base, around)
  {
    hide RunFirst;
    if k < n {
      FirstStays(p, records, n - 1, k, base, around);
    }
  }

  /** How a name changes when the next record is read. */
  lemma NameNext(p: Progress, records: seq<Record>, n: nat, k: nat, base: nat, around: Surroundings)
    requires k + 1 < n <= |records|
    ensures var first, before :=
        FirstSession(p, records, n, base, around), FirstSession(p, records, n - 1, base, around);
            NameOf(p, records, n, k, base, around) ==
            if IsStateFallback(p) && before.None?
                && first.Some? then first else NameOf(p, records, n - 1, k, base, around)
  {
    hide RunFirst, BringsSession, IsStateFallback;
    if FirstSession(p, records, k + 1, base, around).Some? {
      FirstStays(p, records, n - 1, k + 1, base, around);
    }
  }

  lemma LastName(p: Progress, records: seq<Record>, n: nat, base: nat, around: Surroundings)
    requires 0 < n <= |records|
    ensures NameOf(p, records, n, n - 1, base, around) == RunFirst(p, records, n, base, around).current
  {
    hide RunFirst, BringsSession, IsStateFallback;
  }

  /** The rows of a run: those of a fallback that the log replaces end up under the session replacing it. */
  lemma {:induction false} RunNames(p: Progress, records: seq<Record>, n: nat, base: nat, around: Surroundings)
    requires n <= |records| && Known(p) && NamedByFallback(p)
    requires AllFromLog(records)
    ensures var q, first, was := RunFirst(p, records, n, base, around), FirstSession(p, records, n, base, around),
                                 |p.data.records|;
            && Known(q) && NamedByFallback(q) && |q.data.records| == was + n
            && (first.Some? <==> exists i :: 0 <= i < n && BringsSession(records[i]))
            && IsStateFallback(q) == (IsStateFallback(p) && first.None?)
            && (if first.None? then q.current == p.current && q.sessions == p.sessions
                else q.current.Some? && q.sessions[q.current.value].kind == Rollout)
            && (forall k :: 0 <= k < was ==>
                  q.data.records[k] == if IsStateFallback(p) && first.Some? then p.data.records[k].(session := first)
                                       else p.data.records[k])
            && forall k: nat :: k < n ==>
                 q.data.records[was + k].session == NameOf(p, records, n, k, base, around)
  {
    hide Take, BringsSession, FromLog, Known, NamedByFallback, IsStateFallback;
    if n > 0 {
      RunNames(p, records, n - 1, base, around);
      TakeNames(RunFirst(p, records, n - 1, base, around), records[n - 1], base + n, around);
      LastName(p, records, n, base, around);
      var q := RunFirst(p, records, n, base, around);
      forall k: nat | k < n
        ensures q.data.records[|p.data.records| + k].session == NameOf(p, records, n, k, base, around)
      {
        if k < n - 1 {
          NameNext(p, records, n, k, base, around);
        }
      }
    }
  }

  // ---- Turns ----

  function TurnOf(turn: Option<string>, record: Record): Option<string>
  {
    if record.kind.TurnContext? then record.explicitTurn else Fill(record.explicitTurn, turn)
  }

  function NextTurn(turn: Option<string>, record: Record): Option<string>
  {
    match record.kind
    case SessionMeta(candidate) => if candidate.Some? then None else turn
    case TurnContext(_) => record.explicitTurn
    case EventMessage(lifecycle, _, _) => if lifecycle == Some("turn_started") then TurnOf(turn, record) else turn
    case ResponseItem(_) => turn
    case Other => turn
  }

  lemma TurnOfTake(p: Progress, record: Record, sequence: nat, around: Surroundings)
    ensures var q, n := Take(p, record, sequence, around), |p.data.records|;
            && q.turn == NextTurn(p.turn, record) && |q.data.records| == n + 1
            && (forall k :: 0 <= k < n ==> q.data.records[k].turn == p.data.records[k].turn
                                           && q.data.records[k].sequence == p.data.records[k].sequence)
            && q.data.records[n].turn == TurnOf(p.turn, record) && q.data.records[n].sequence == sequence
  {
    hide MergeRolloutSession, Merged, RenamedParents, AddOrUpdateTurn, AddLifecycle, IsStateFallback;
    if record.kind.EventMessage? {
      EventKeepsRecords(p, record, sequence);
    }
  }

  /** The turn a record leaves current, and the turn its row names: sessions play no part in either. */
  lemma TakeTurns(p: Progress, q: Progress, record: Record, sequence: nat, around: Surroundings, other: Surroundings)
    requires p.turn == q.turn
    ensures var r, s := Take(p, record, sequence, around), Take(q, record, sequence, other);
            && r.turn == s.turn && |r.data.records| == |p.data.records| + 1 && |s.data.records| == |q.data.records| + 1
            && (forall k :: 0 <= k < |p.data.records| ==>
                  r.data.records[k].turn == p.data.records[k].turn
                  && r.data.records[k].sequence == p.data.records[k].sequence)
            && var a, b := r.data.records[|p.data.records|], s.data.records[|q.data.records|];
               a.turn == b.turn && a.sequence == b.sequence == sequence
  {
    TurnOfTake(p, record, sequence, around);
    TurnOfTake(q, record, sequence, other);
  }

  ghost predicate SameTurns(a: seq<Row>, b: seq<Row>)
  {
    && |a| == |b|
    && forall k :: 0 <= k < |a| ==> a[k].turn == b[k].turn && a[k].sequence == b[k].sequence
  }

  lemma {:induction false} RunTurns(p: Progress, q: Progress, records: seq<Record>, n: nat, base: nat,
                                    around: Surroundings, other: Surroundings)
    requires n <= |records| && p.turn == q.turn
    ensures var r, s := RunFirst(p, records, n, base, around), RunFirst(q, records, n, base, other);
            && r.turn == s.turn
            && |r.data.records| == |p.data.records| + n && |s.data.records| == |q.data.records| + n
            && SameTurns(r.data.records[..|p.data.records|], p.data.records)
            && SameTurns(r.data.records[|p.data.records|..], s.data.records[|q.data.records|..])
  {
    hide Take;
    if n > 0 {
      var r, s := RunFirst(p, records, n - 1, base, around), RunFirst(q, records, n - 1, base, other);
      RunTurns(p, q, records, n - 1, base, around, other);
      TakeTurns(r, s, records[n - 1], base + n, around, other);
      TakeTurns(s, r, records[n - 1], base + n, other, around);
    }
  }

  /** The current turn's id is that of a listed turn. */
  ghost predicate TurnIsThere(p: Progress)
  {
    p.turn.Some? ==> HasTurn(p.data.turns, p.turn.value)
  }

  ghost predicate HasTurn(turns: seq<Turn>, id: string)
  {
    exists i :: 0 <= i < |turns| && turns[i].id == id
  }

  lemma TurnsStay(turns: seq<Turn>, id: string, session: Option<string>, settings: Option<Settings>, kind: string,
                  timestamp: Option<string>, sequence: nat, other: string)
    requires HasTurn(turns, other) || other == id
    ensures HasTurn(AddOrUpdateTurn(turns, id, session, settings, timestamp, sequence), other)
    ensures HasTurn(AddLifecycle(turns, id, session, kind, timestamp, sequence), other)
  {
    var (more, at) := Ensured(turns, id, session, sequence);
    var i := if other == id then at else var i :| 0 <= i < |turns| && turns[i].id == other; i;
    assert more[i].id == other;
    assert AddOrUpdateTurn(turns, id, session, settings, timestamp, sequence)[i].id == other;
    assert AddLifecycle(turns, id, session, kind, timestamp, sequence)[i].id == other;
  }

  lemma TakeKeepsTurnThere(p: Progress, record: Record, sequence: nat, around: Surroundings)
    requires TurnIsThere(p)
    ensures TurnIsThere(Take(p, record, sequence, around))
  {
    hide MergeRolloutSession, Merged, RenamedParents, AddOrUpdateTurn, AddLifecycle, IsStateFallback, HasTurn;
    var turns := p.data.turns;
    if record.kind.TurnContext? && record.explicitTurn.Some? {
      TurnsStay(turns, record.explicitTurn.value, p.current, record.kind.settings, "", record.timestamp, sequence,
                record.explicitTurn.value);
    } else if record.kind.EventMessage? && record.kind.lifecycle.Some? && Fill(record.explicitTurn, p.turn).Some? {
      var turn, kind := Fill(record.explicitTurn, p.turn).value, record.kind.lifecycle.value;
      TurnsStay(turns, turn, p.current, None, kind, record.timestamp, sequence, turn);
      if p.turn.Some? {
        TurnsStay(turns, turn, p.current, None, kind, record.timestamp, sequence, p.turn.value);
      }
    }
  }

  lemma {:induction false} RunKeepsTurnThere(p: Progress, records: seq<Record>, n: nat, base: nat, around: Surroundings)
    requires n <= |records| && TurnIsThere(p)
    ensures TurnIsThere(RunFirst(p, records, n, base, around))
  {
    hide Take, TurnIsThere;
    if n > 0 {
      RunKeepsTurnThere(p, records, n - 1, base, around);
      TakeKeepsTurnThere(RunFirst(p, records, n - 1, base, around), records[n - 1], base + n, around);
    }
  }

  /** The id of the current turn is handed over, whichever turn of that id it is. */
  lemma TurnIdIsHandedOver(p: Progress)
    requires TurnIsThere(p)
    ensures (match HandOver(p).turn case Some(t) => Some(t.id) case None => None) == p.turn
  {
    if p.turn.Some? {
      var i :| 0 <= i < |p.data.turns| && p.data.turns[i].id == p.turn.value;
      assert p.data.turns[i] in p.data.turns;
    }
  }

  // ---- When the rows of a poll are those of the whole run ----

  /** Starting sessions that differ only when the poll has lost the state session the whole run is in. */
  ghost predicate StartsAlike(start: Progress, p: Progress)
  {
    && (start.current == p.current ==> IsStateFallback(start) == IsStateFallback(p))
    && (IsStateFallback(start) ==> start.current == p.current)
    && (IsStateFallback(p) && start.current != p.current ==> start.current.None?)
  }

  /** The poll starts in the session the whole run is in, or its first record names a session. */
  ghost predicate StartAgrees(start: Progress, p: Progress, records: seq<Record>)
  {
    records == [] || BringsSession(records[0]) || start.current == p.current
  }

  /** Session metadata i leads to the same session in the poll and in the whole run. */
  ghost predicate ChoiceAgrees(start: Progress, p: Progress, records: seq<Record>, i: nat, base: nat,
                               pollAround: Surroundings, around: Surroundings)
    requires i < |records|
  {
    BringsSession(records[i]) ==>
      RunFirst(start, records, i + 1, base, pollAround).current == RunFirst(p, records, i + 1, base, around).current
  }

  ghost predicate ChoicesAgree(start: Progress, p: Progress, records: seq<Record>, base: nat, pollAround: Surroundings,
                               around: Surroundings)
  {
    forall i: nat :: i < |records| ==> ChoiceAgrees(start, p, records, i, base, pollAround, around)
  }

  lemma {:induction false} CurrentsAgree(start: Progress, p: Progress, records: seq<Record>, n: nat, base: nat,
                                         pollAround: Surroundings, around: Surroundings)
    requires n <= |records| && StartAgrees(start, p, records)
    requires ChoicesAgree(start, p, records, base, pollAround, around)
    requires n > 0 || start.current == p.current
    ensures RunFirst(start, records, n, base, pollAround).current == RunFirst(p, records, n, base, around).current
  {
    hide Take, BringsSession;
    if n > 0 {
      assert ChoiceAgrees(start, p, records, n - 1, base, pollAround, around);
      if !BringsSession(records[n - 1]) {
        CurrentsAgree(start, p, records, n - 1, base, pollAround, around);
        OthersKeepCurrent(RunFirst(start, records, n - 1, base, pollAround), records[n - 1], base + n, pollAround);
        OthersKeepCurrent(RunFirst(p, records, n - 1, base, around), records[n - 1], base + n, around);
      }
    }
  }

  lemma OthersKeepCurrent(p: Progress, record: Record, sequence: nat, around: Surroundings)
    requires !BringsSession(record)
    ensures Take(p, record, sequence, around).current == p.current
  {
    hide AddLifecycle, AddOrUpdateTurn;
  }

  /** Whether metadata has come by record k is the same for both. */
  lemma {:induction false} FirstsAgree(start: Progress, p: Progress, records: seq<Record>, n: nat, base: nat,
                                       pollAround: Surroundings, around: Surroundings)
    requires n <= |records|
    requires Known(start) && NamedByFallback(start) && Known(p) && NamedByFallback(p)
    requires AllFromLog(records)
    ensures FirstSession(start, records, n, base, pollAround).Some? == FirstSession(p, records, n, base, around).Some?
  {
    hide RunFirst, Known, NamedByFallback, AllFromLog, BringsSession, NameOf, FirstSession;
    RunNames(start, records, n, base, pollAround);
    RunNames(p, records, n, base, around);
  }

  ghost predicate NamesAgree(start: Progress, p: Progress, records: seq<Record>, base: nat, pollAround: Surroundings,
                             around: Surroundings)
  {
    forall k: nat :: k < |records| ==>
      NameOf(start, records, |records|, k, base, pollAround) == NameOf(p, records, |records|, k, base, around)
  }

  lemma NamesAgreeIff(start: Progress, p: Progress, records: seq<Record>, base: nat, pollAround: Surroundings,
                      around: Surroundings)
    requires StartsAlike(start, p) && Known(start) && NamedByFallback(start) && Known(p) && NamedByFallback(p)
    requires AllFromLog(records)
    ensures NamesAgree(start, p, records, base, pollAround, around) <==>
            StartAgrees(start, p, records) && ChoicesAgree(start, p, records, base, pollAround, around)
  {
    if StartAgrees(start, p, records) && ChoicesAgree(start, p, records, base, pollAround, around) {
      AgreeingNames(start, p, records, base, pollAround, around);
    }
    if NamesAgree(start, p, records, base, pollAround, around) {
      AgreeingChoices(start, p, records, base, pollAround, around);
      AgreeingStart(start, p, records, base, pollAround, around);
    }
  }

  lemma BroughtBy(p: Progress, records: seq<Record>, i: nat, base: nat, around: Surroundings)
    requires i < |records| && BringsSession(records[i]) && Known(p) && NamedByFallback(p)
    requires AllFromLog(records)
    ensures FirstSession(p, records, i + 1, base, around).Some?
  {
    hide RunFirst, AllFromLog, BringsSession, NameOf, FirstSession, Known, NamedByFallback;
    RunNames(p, records, i + 1, base, around);
  }

  /** The first metadata of the first k records, where there is one, leads to the session current after it. */
  lemma {:induction false} FirstIsCurrent(p: Progress, records: seq<Record>, n: nat, base: nat, around: Surroundings)
    returns (i: nat)
    requires n <= |records| && FirstSession(p, records, n, base, around).Some?
    requires Known(p) && NamedByFallback(p) && AllFromLog(records)
    ensures i < n && BringsSession(records[i]) && (forall k :: 0 <= k < i ==> !BringsSession(records[k]))
    ensures FirstSession(p, records, n, base, around) == RunFirst(p, records, i + 1, base, around).current
  {
    hide RunFirst, BringsSession, AllFromLog, Known, NamedByFallback;
    if FirstSession(p, records, n - 1, base, around).Some? {
      i := FirstIsCurrent(p, records, n - 1, base, around);
    } else {
      i := n - 1;
      if k :| 0 <= k < i && BringsSession(records[k]) {
        BroughtBy(p, records, k, base, around);
        FirstStays(p, records, n - 1, k + 1, base, around);
      }
    }
  }

  lemma AgreeingNames(start: Progress, p: Progress, records: seq<Record>, base: nat, pollAround: Surroundings,
                      around: Surroundings)
    requires StartsAlike(start, p) && Known(start) && NamedByFallback(start) && Known(p) && NamedByFallback(p)
    requires AllFromLog(records)
    requires StartAgrees(start, p, records) && ChoicesAgree(start, p, records, base, pollAround, around)
    ensures NamesAgree(start, p, records, base, pollAround, around)
  {
    hide RunFirst, Known, NamedByFallback, AllFromLog, BringsSession, IsStateFallback, FirstSession, ChoicesAgree;
    var n := |records|;
    forall k: nat | k < n
      ensures NameOf(start, records, n, k, base, pollAround) == NameOf(p, records, n, k, base, around)
    {
      FirstsAgree(start, p, records, n, base, pollAround, around);
      FirstsAgree(start, p, records, k + 1, base, pollAround, around);
      CurrentsAgree(start, p, records, k + 1, base, pollAround, around);
      if FirstSession(start, records, n, base, pollAround).Some? {
        var i := FirstIsCurrent(start, records, n, base, pollAround);
        var j := FirstIsCurrent(p, records, n, base, around);
        assert i == j;
        CurrentsAgree(start, p, records, i + 1, base, pollAround, around);
      }
      if start.current != p.current {
        assert BringsSession(records[0]);
        FirstOfAll(start, records, k + 1, base, pollAround);
      }
    }
  }

  /** Metadata in the first record is the first. */
  lemma FirstOfAll(p: Progress, records: seq<Record>, n: nat, base: nat, around: Surroundings)
    requires 0 < n <= |records| && BringsSession(records[0]) && Known(p) && NamedByFallback(p)
    requires AllFromLog(records)
    ensures FirstSession(p, records, n, base, around).Some?
  {
    hide RunFirst, AllFromLog, BringsSession, NameOf, FirstSession, Known, NamedByFallback;
    RunNames(p, records, n, base, around);
  }

  lemma AgreeingChoices(start: Progress, p: Progress, records: seq<Record>, base: nat, pollAround: Surroundings,
                        around: Surroundings)
    requires Known(start) && NamedByFallback(start) && Known(p) && NamedByFallback(p)
    requires AllFromLog(records)
    requires NamesAgree(start, p, records, base, pollAround, around)
    ensures ChoicesAgree(start, p, records, base, pollAround, around)
  {
    hide RunFirst, AllFromLog, BringsSession, FirstSession, Known, NamedByFallback, IsStateFallback;
    var n := |records|;
    forall i: nat | i < n ensures ChoiceAgrees(start, p, records, i, base, pollAround, around) {
      assert NameOf(start, records, n, i, base, pollAround) == NameOf(p, records, n, i, base, around);
      if BringsSession(records[i]) {
        BroughtBy(start, records, i, base, pollAround);
        BroughtBy(p, records, i, base, around);
      }
    }
  }

  lemma AgreeingStart(start: Progress, p: Progress, records: seq<Record>, base: nat, pollAround: Surroundings,
                      around: Surroundings)
    requires StartsAlike(start, p) && Known(start) && NamedByFallback(start) && Known(p) && NamedByFallback(p)
    requires AllFromLog(records)
    requires NamesAgree(start, p, records, base, pollAround, around)
    ensures StartAgrees(start, p, records)
  {
    hide AllFromLog, BringsSession, FirstSession, Known, NamedByFallback, IsStateFallback, Take;
    var n := |records|;
    if n > 0 && !BringsSession(records[0]) {
      assert NameOf(start, records, n, 0, base, pollAround) == NameOf(p, records, n, 0, base, around);
      FirstsAgree(start, p, records, n, base, pollAround, around);
      OthersKeepCurrent(start, records[0], base + 1, pollAround);
      OthersKeepCurrent(p, records[0], base + 1, around);
      OneRecord(start, records, base, pollAround);
      OneRecord(p, records, base, around);
      NotYet(start, records, base, pollAround);
      NotYet(p, records, base, around);
    }
  }

  lemma OneRecord(p: Progress, records: seq<Record>, base: nat, around: Surroundings)
    requires records != []
    ensures RunFirst(p, records, 1, base, around) == Take(p, records[0], base + 1, around)
  {
    hide Take;
  }

  lemma NotYet(p: Progress, records: seq<Record>, base: nat, around: Surroundings)
    requires records != [] && !BringsSession(records[0])
    ensures FirstSession(p, records, 1, base, around).None?
  {
    hide RunFirst, BringsSession;
    assert FirstSession(p, records, 0, base, around).None?;
  }

  // ---- Polls beside the whole run ----

  function CarriedName(s: Polled): Option<string>
  {
    var carried := PollContext(s).session;
    if carried.Some? then Some(carried.value.id) else None
  }

  function CarriedTurn(s: Polled): Option<string>
  {
    var turn := PollContext(s).turn;
    if turn.Some? then Some(turn.value.id) else None
  }

  ghost predicate AllName(rows: seq<Row>, session: Option<string>)
  {
    forall k :: 0 <= k < |rows| ==> rows[k].session == session
  }

  /** Before the log named a session: the rows name the state session, if there is one and the polls have found it. */
  ghost predicate Early(s: Polled, p: Progress)
  {
    && AllName(s.stored.records, CarriedName(s)) && AllName(p.data.records, p.current)
    && var carried := PollContext(s).session;
       carried.Some? ==> p.current == Some(carried.value.id) && p.current.value in p.sessions
                         && p.sessions[p.current.value] == carried.value
  }

  /** After that: both are in a session of the log, which their last rows name. */
  ghost predicate Late(s: Polled, p: Progress)
  {
    var stored, rows, carried := s.stored.records, p.data.records, PollContext(s).session;
    && stored != [] && rows != [] && carried.Some? && carried.value.kind == Rollout && !IsStateFallback(p)
    && stored[|stored| - 1].session == CarriedName(s) && rows[|rows| - 1].session == p.current
  }

  ghost predicate InStep(s: Polled, p: Progress, path: string, around: Surroundings)
  {
    && s.count == |s.stored.records| == |p.data.records| && Known(p) && NamedByFallback(p)
    && SameTurns(s.stored.records, p.data.records) && CarriedTurn(s) == p.turn
    && (s.context.None? ==> s.count == 0 && p == Start(Some(path), Context(None, None), around))
    && (if s.context.None? then true else Early(s, p) || Late(s, p))
  }

  lemma PollStartIs(s: Polled, p: Progress, records: seq<Record>, path: string, around: Surroundings)
    requires InStep(s, p, path, around)
    ensures var start := PollStart(s, records, path, around);
            && Known(start) && start.data.records == [] && NamedByFallback(start) && TurnIsThere(start)
            && start.turn == p.turn
            && (s.context.Some? && PollContext(s).session.Some? ==>
                  start.current == CarriedName(s)
                  && start.sessions == map[start.current.value := PollContext(s).session.value])
            && (s.context.Some? && PollContext(s).session.None? ==> start.current.None? && start.sessions == map[])
            && (s.context.None? && records != [] ==> start == p)
            && (s.context.None? && records == [] ==> start.current.None?)
  {
    hide Find, Early, Late, SameTurns;
    var start := PollStart(s, records, path, around);
    if start.turn.Some? {
      assert start.data.turns[0].id == start.turn.value;
    }
    NothingFound((t: Session) => PathMatches(t.rolloutPath, PathOf(path, records), PollAround(s, around)));
  }

  lemma NothingFound(p: Session -> bool)
    ensures Find([], p) == None
  {
  }

  /** When the store's rows of earlier polls are renamed as the whole run renames them. */
  ghost predicate RenamesAgree(s: Polled, p: Progress, target: Option<string>, first: Option<string>)
  {
    s.count == 0 || !IsStateFallback(p) || first == target || (target.None? && first == p.current)
  }

  /** A poll leaves its rows as the whole run leaves them. */
  ghost predicate StepAgrees(s: Polled, p: Progress, records: seq<Record>, path: string, around: Surroundings)
  {
    var start, n := PollStart(s, records, path, around), |records|;
    && StartAgrees(start, p, records)
    && ChoicesAgree(start, p, records, s.count, PollAround(s, around), around)
    && RenamesAgree(s, p, RekeyTarget(s, PollFirst(s, records, n, path, around).sessions),
                    FirstSession(p, records, n, s.count, around))
  }

  lemma StartsAreAlike(s: Polled, p: Progress, records: seq<Record>, path: string, around: Surroundings)
    requires InStep(s, p, path, around)
    ensures StartsAlike(PollStart(s, records, path, around), p)
    ensures IsStateFallback(p) && s.context.Some? ==> Early(s, p) && p.current.Some?
    ensures s.count > 0 && IsStateFallback(p) && PollContext(s).session.Some? ==>
              PollContext(s).session.value.kind == State && p.current == CarriedName(s)
    ensures !IsStateFallback(p) ==> forall sessions :: RekeyTarget(s, sessions).None?
  {
    hide PollStart, Find, SameTurns, Start;
    PollStartIs(s, p, records, path, around);
  }

  lemma TargetIsOther(s: Polled, sessions: map<string, Session>)
    ensures var target := RekeyTarget(s, sessions);
            target.Some? ==> PollContext(s).session.Some? && target != CarriedName(s)
  {
  }

  lemma EarlyRowsAgreeIff(stored: seq<Row>, rows: seq<Row>, left: seq<Row>, right: seq<Row>, carried: Option<string>,
                          current: Option<string>, target: Option<string>, first: Option<string>)
    requires |left| == |right| == |stored| == |rows| > 0 && SameTurns(stored, rows)
    requires AllName(stored, carried) && AllName(rows, current) && current.Some?
    requires (carried.None? || carried == current) && (target.Some? ==> carried.Some? && target != carried)
    requires forall k :: 0 <= k < |left| ==>
               left[k] == if target.Some? then stored[k].(session := target) else stored[k]
    requires forall k :: 0 <= k < |right| ==>
               right[k] == if first.Some? then rows[k].(session := first) else rows[k]
    ensures left == right <==> stored == rows && (first == target || (target.None? && first == current))
  {
    assert left[0] == right[0] ==>
             carried == current && (first == target || (target.None? && first == current));
    if carried == current {
      forall k | 0 <= k < |stored| ensures stored[k] == rows[k] {
      }
    } else {
      assert stored[0] != rows[0] && left[0] != right[0];
    }
  }

  /** The rows of earlier polls, after both have renamed what they rename. */
  lemma EarlierRowsAgreeIff(s: Polled, p: Progress, records: seq<Record>, path: string, around: Surroundings)
    requires InStep(s, p, path, around) && AllFromLog(records)
    ensures var n, q := |records|, PollFirst(s, records, |records|, path, around);
            var whole, first := RunFirst(p, records, n, s.count, around), FirstSession(p, records, n, s.count, around);
            |whole.data.records| == s.count + n
            && (Rekeyed(s, q.sessions).records == whole.data.records[..s.count] <==>
                s.stored.records == p.data.records && RenamesAgree(s, p, RekeyTarget(s, q.sessions), first))
  {
    hide RunFirst, PollStart, FirstSession, Known, NamedByFallback, AllFromLog, NameOf, BringsSession, IsStateFallback,
         RekeyTarget, Start, Late;
    var n, q := |records|, PollFirst(s, records, |records|, path, around);
    var whole, first := RunFirst(p, records, n, s.count, around), FirstSession(p, records, n, s.count, around);
    RunNames(p, records, n, s.count, around);
    StartsAreAlike(s, p, records, path, around);
    var left, right, target :=
        Rekeyed(s, q.sessions).records, whole.data.records[..s.count], RekeyTarget(s, q.sessions);
    assert forall k :: 0 <= k < s.count ==> right[k] == whole.data.records[k];
    if !IsStateFallback(p) {
      assert left == s.stored.records && right == p.data.records;
    } else if s.count == 0 {
      assert left == [] && right == [];
    } else {
      assert Early(s, p);
      EarlyRowsAgreeIff(s.stored.records, p.data.records, left, right, CarriedName(s), p.current, target, first) by {
        TargetIsOther(s, q.sessions);
        hide RenamesAgree;
      }
    }
  }

  lemma NewRowsAgreeIff(s: Polled, p: Progress, records: seq<Record>, path: string, around: Surroundings)
    requires InStep(s, p, path, around) && AllFromLog(records)
    ensures var start, n, q :=
        PollStart(s, records, path, around), |records|, PollFirst(s, records, |records|, path, around);
            var whole := RunFirst(p, records, n, s.count, around);
            && |q.data.records| == n && |whole.data.records| == s.count + n
            && SameTurns(q.data.records, whole.data.records[s.count..])
            && (q.data.records == whole.data.records[s.count..] <==>
                StartAgrees(start, p, records)
                && ChoicesAgree(start, p, records, s.count, PollAround(s, around), around))
  {
    hide RunFirst, PollStart, FirstSession, Known, NamedByFallback, AllFromLog, NameOf, BringsSession, IsStateFallback,
         Start, Late, Early, ChoiceAgrees, StartsAlike;
    var start, n, q := PollStart(s, records, path, around), |records|, PollFirst(s, records, |records|, path, around);
    var whole := RunFirst(p, records, n, s.count, around);
    PollStartIs(s, p, records, path, around);
    StartsAreAlike(s, p, records, path, around);
    RunNames(start, records, n, s.count, PollAround(s, around));
    RunNames(p, records, n, s.count, around);
    RunTurns(start, p, records, n, s.count, PollAround(s, around), around);
    NamesAgreeIff(start, p, records, s.count, PollAround(s, around), around);
    var mine, theirs := q.data.records, whole.data.records[s.count..];
    assert mine == q.data.records[0..];
    forall k: nat | k < n
      ensures mine[k].session == NameOf(start, records, n, k, s.count, PollAround(s, around))
      ensures theirs[k].session == NameOf(p, records, n, k, s.count, around)
    {
      assert theirs[k] == whole.data.records[s.count + k] && mine[k] == q.data.records[0 + k];
    }
    SameRowsIff(mine, theirs);
  }

  lemma SameRowsIff(a: seq<Row>, b: seq<Row>)
    requires SameTurns(a, b)
    ensures a == b <==> forall k: nat :: k < |a| ==> a[k].session == b[k].session
  {
  }

  // ---- What polls keep ----

  lemma NamesWithoutMetadata(p: Progress, records: seq<Record>, n: nat, k: nat, base: nat, around: Surroundings)
    requires k < n <= |records| && FirstSession(p, records, n, base, around).None?
    requires Known(p) && NamedByFallback(p) && AllFromLog(records)
    ensures NameOf(p, records, n, k, base, around) == p.current
  {
    hide RunFirst, AllFromLog, BringsSession, FirstSession, Known, NamedByFallback, IsStateFallback;
    if FirstSession(p, records, k + 1, base, around).Some? {
      FirstStays(p, records, n, k + 1, base, around);
    }
    RunNames(p, records, k + 1, base, around);
  }

  lemma RunWithoutMetadata(p: Progress, records: seq<Record>, n: nat, base: nat, around: Surroundings)
    requires n <= |records| && FirstSession(p, records, n, base, around).None?
    requires Known(p) && NamedByFallback(p) && AllFromLog(records)
    ensures var q, was := RunFirst(p, records, n, base, around), |p.data.records|;
            && q.current == p.current && q.sessions == p.sessions && IsStateFallback(q) == IsStateFallback(p)
            && |q.data.records| == was + n && q.data.records == p.data.records + q.data.records[was..]
            && AllName(q.data.records[was..], p.current)
  {
    hide RunFirst, AllFromLog, BringsSession, FirstSession, Known, NamedByFallback, IsStateFallback, NameOf;
    RunNames(p, records, n, base, around);
    var q, was := RunFirst(p, records, n, base, around), |p.data.records|;
    forall k | 0 <= k < n ensures q.data.records[was..][k].session == p.current {
      NamesWithoutMetadata(p, records, n, k, base, around);
      assert q.data.records[was..][k] == q.data.records[was + k];
    }
  }

  lemma RunWithMetadata(p: Progress, records: seq<Record>, n: nat, base: nat, around: Surroundings)
    requires n <= |records| && FirstSession(p, records, n, base, around).Some?
    requires Known(p) && NamedByFallback(p) && AllFromLog(records)
    ensures var q, rows := RunFirst(p, records, n, base, around), RunFirst(p, records, n, base, around).data.records;
            && n > 0 && q.current.Some? && q.current.value in q.sessions && q.sessions[q.current.value].kind == Rollout
            && !IsStateFallback(q) && |rows| == |p.data.records| + n && rows[|rows| - 1].session == q.current
  {
    hide RunFirst, AllFromLog, BringsSession, Known, NamedByFallback, IsStateFallback, NameOf;
    RunNames(p, records, n, base, around);
    assert n > 0;
    hide FirstSession;
    LastName(p, records, n, base, around);
    var rows := RunFirst(p, records, n, base, around).data.records;
    assert rows[|rows| - 1] == rows[|p.data.records| + (n - 1)];
    assert Known(RunFirst(p, records, n, base, around));
    CurrentIsKnown(RunFirst(p, records, n, base, around));
  }

  lemma CurrentIsKnown(p: Progress)
    requires Known(p) && p.current.Some?
    ensures p.current.value in p.sessions && p.sessions[p.current.value].id == p.current.value
  {
  }

  /** The rows after a poll: those of earlier polls, renamed or not, and those of the poll's run. */
  lemma NextPollIs(s: Polled, records: seq<Record>, path: string, around: Surroundings)
    ensures var next, q := NextPoll(s, records, path, around), PollFirst(s, records, |records|, path, around);
            && next.count == s.count + |records| && next.context == Some(HandOver(q))
            && next.stored.records == Rekeyed(s, q.sessions).records + q.data.records
            && |Rekeyed(s, q.sessions).records| == |s.stored.records|
            && SameTurns(Rekeyed(s, q.sessions).records, s.stored.records)
            && (RekeyTarget(s, q.sessions).None? ==> Rekeyed(s, q.sessions) == s.stored)
  {
    hide RunFirst, Start, Deduplicated, RekeyTarget, Find;
  }

  lemma CarriedIsCurrent(s: Polled, q: Progress)
    requires Known(q) && s.context == Some(HandOver(q))
    ensures CarriedName(s) == q.current
    ensures q.current.Some? ==> q.current.value in q.sessions
                                && PollContext(s).session == Some(q.sessions[q.current.value])
    ensures q.current.None? ==> PollContext(s).session == None
  {
    hide Find;
  }

  /** A poll that brings metadata leaves both in a session of the log. */
  lemma MetadataEndsEarly(s: Polled, p: Progress, records: seq<Record>, path: string, around: Surroundings)
    requires InStep(s, p, path, around) && AllFromLog(records)
    requires FirstSession(p, records, |records|, s.count, around).Some?
    ensures Late(NextPoll(s, records, path, around), RunFirst(p, records, |records|, s.count, around))
  {
    var start, n := PollStart(s, records, path, around), |records|;
    var q, whole, next := PollFirst(s, records, n, path, around), RunFirst(p, records, n, s.count, around),
                          NextPoll(s, records, path, around);
    hide RunFirst, PollStart, FirstSession, AllFromLog, NameOf, BringsSession, IsStateFallback, Early, PollAround,
         Start, RekeyTarget, NextPoll, HandOver, Rekeyed, CarriedName, SameTurns, Known, NamedByFallback;
    PollStartIs(s, p, records, path, around);
    FirstsAgree(start, p, records, n, s.count, PollAround(s, around), around);
    RunWithMetadata(start, records, n, s.count, PollAround(s, around));
    RunWithMetadata(p, records, n, s.count, around);
    NextPollIs(s, records, path, around);
    RunIsKnown(start, records, n, s.count, PollAround(s, around));
    CarriedIsCurrent(next, q);
  }

  lemma RunIsKnown(p: Progress, records: seq<Record>, n: nat, base: nat, around: Surroundings)
    requires n <= |records| && Known(p) && NamedByFallback(p)
    requires AllFromLog(records)
    ensures Known(RunFirst(p, records, n, base, around)) && NamedByFallback(RunFirst(p, records, n, base, around))
  {
    hide RunFirst, AllFromLog, BringsSession, Known, NamedByFallback, IsStateFallback, NameOf, FirstSession;
    RunNames(p, records, n, base, around);
  }

  /** After the first poll, as long as it had records, the session carried is the one the log starts in. */
  ghost predicate CarriesStart(s: Polled, p: Progress, records: seq<Record>)
  {
    var carried := PollContext(s).session;
    if records == [] then carried.None?
    else if p.current.None? then carried.None?
    else p.current.value in p.sessions && carried == Some(p.sessions[p.current.value])
         && carried.value.id == p.current.value
  }

  lemma RowsWithoutMetadata(s: Polled, p: Progress, records: seq<Record>, path: string, around: Surroundings)
    requires InStep(s, p, path, around) && AllFromLog(records)
    requires FirstSession(p, records, |records|, s.count, around).None?
    ensures var start, q := PollStart(s, records, path, around), PollFirst(s, records, |records|, path, around);
            var next, whole := NextPoll(s, records, path, around), RunFirst(p, records, |records|, s.count, around);
            && next.stored.records == s.stored.records + q.data.records && AllName(q.data.records, start.current)
            && |q.data.records| == |records|
            && CarriedName(next) == start.current
            && (s.context.Some? ==>
                PollContext(next).session == PollContext(s).session && start.current == CarriedName(s))
            && (s.context.None? ==> CarriesStart(next, p, records))
  {
    var start, n := PollStart(s, records, path, around), |records|;
    var q, next := PollFirst(s, records, n, path, around), NextPoll(s, records, path, around);
    hide RunFirst, PollStart, FirstSession, AllFromLog, NameOf, BringsSession, IsStateFallback, PollAround, Start,
         NextPoll, HandOver, Rekeyed, RekeyTarget, SameTurns, Known, NamedByFallback, Early, Late, AllName, CarriedName;
    PollStartIs(s, p, records, path, around);
    FirstsAgree(start, p, records, n, s.count, PollAround(s, around), around);
    RunWithoutMetadata(start, records, n, s.count, PollAround(s, around));
    NextPollIs(s, records, path, around);
    RunIsKnown(start, records, n, s.count, PollAround(s, around));
    CarriedIsCurrent(next, q);
    NothingToRekey(s, q);
    assert q.data.records[0..] == q.data.records;
    if s.context.Some? {
      CarriedStarts(s, start);
    } else if p.current.Some? {
      CurrentIsKnown(p);
    }
  }

  lemma CarriedStarts(s: Polled, start: Progress)
    requires PollContext(s).session.Some? ==> start.current == CarriedName(s)
    requires PollContext(s).session.None? ==> start.current.None?
    ensures start.current == CarriedName(s)
  {
  }

  lemma LateStays(s: Polled, p: Progress, next: Polled, whole: Progress, rows: seq<Row>, others: seq<Row>)
    requires Late(s, p) && PollContext(next).session == PollContext(s).session && |rows| == |others|
    requires whole.current == p.current && whole.sessions == p.sessions
    requires next.stored.records == s.stored.records + rows && whole.data.records == p.data.records + others
    requires AllName(rows, CarriedName(next)) && AllName(others, p.current)
    ensures Late(next, whole)
  {
  }

  lemma EarlyStays(s: Polled, p: Progress, next: Polled, whole: Progress, rows: seq<Row>, others: seq<Row>,
                   records: seq<Record>, path: string, around: Surroundings)
    requires InStep(s, p, path, around) && (s.context.Some? ==> Early(s, p))
    requires whole.current == p.current && whole.sessions == p.sessions && |rows| == |others|
    requires s.context.Some? ==> PollContext(next).session == PollContext(s).session
    requires s.context.None? ==> CarriesStart(next, p, records) && |rows| == |records|
    requires next.stored.records == s.stored.records + rows && whole.data.records == p.data.records + others
    requires AllName(rows, CarriedName(next)) && AllName(others, p.current)
    ensures Early(next, whole)
  {
    hide IsStateFallback, Start, Known, NamedByFallback, SameTurns, Late;
  }

  lemma PlaceStays(s: Polled, p: Progress, next: Polled, whole: Progress, rows: seq<Row>, others: seq<Row>,
                   records: seq<Record>, path: string, around: Surroundings)
    requires InStep(s, p, path, around) && whole.current == p.current && whole.sessions == p.sessions
    requires |rows| == |others| == |records|
    requires s.context.Some? ==> PollContext(next).session == PollContext(s).session
    requires s.context.None? ==> CarriesStart(next, p, records)
    requires next.stored.records == s.stored.records + rows && whole.data.records == p.data.records + others
    requires AllName(rows, CarriedName(next)) && AllName(others, p.current)
    ensures Early(next, whole) || Late(next, whole)
  {
    hide Early, Late, AllName, Start, Known, NamedByFallback, SameTurns, CarriesStart;
    if s.context.Some? && Late(s, p) {
      LateStays(s, p, next, whole, rows, others);
    } else {
      EarlyStays(s, p, next, whole, rows, others, records, path, around);
    }
  }

  /** A poll without metadata leaves both where they were. */
  lemma NoMetadataKeeps(s: Polled, p: Progress, records: seq<Record>, path: string, around: Surroundings)
    requires InStep(s, p, path, around) && AllFromLog(records)
    requires FirstSession(p, records, |records|, s.count, around).None?
    ensures var next, whole := NextPoll(s, records, path, around), RunFirst(p, records, |records|, s.count, around);
            Early(next, whole) || Late(next, whole)
  {
    var n := |records|;
    var q, whole, next := PollFirst(s, records, n, path, around), RunFirst(p, records, n, s.count, around),
                          NextPoll(s, records, path, around);
    hide RunFirst, PollStart, FirstSession, AllFromLog, NameOf, BringsSession, IsStateFallback, PollAround, PollFirst,
         Start, NextPoll, SameTurns, Known, NamedByFallback, Early, Late, AllName, CarriedName, CarriesStart;
    RowsWithoutMetadata(s, p, records, path, around);
    RunWithoutMetadata(p, records, n, s.count, around);
    hide InStep;
    PlaceStays(s, p, next, whole, q.data.records, whole.data.records[|p.data.records|..], records, path, around);
  }

  lemma NothingToRekey(s: Polled, q: Progress)
    requires var carried := PollContext(s).session;
             s.context.None? || carried.None? || q.sessions == map[carried.value.id := carried.value]
    ensures RekeyTarget(s, q.sessions).None?
  {
  }

  lemma StepKeeps(s: Polled, p: Progress, records: seq<Record>, path: string, around: Surroundings)
    requires InStep(s, p, path, around) && AllFromLog(records)
    ensures InStep(NextPoll(s, records, path, around), RunFirst(p, records, |records|, s.count, around), path, around)
    ensures NextPoll(s, records, path, around).context.Some?
  {
    hide RunFirst, PollStart, FirstSession, AllFromLog, NameOf, BringsSession, IsStateFallback, Start, NextPoll,
         HandOver, Rekeyed, RekeyTarget, Known, NamedByFallback, Early, Late, PollAround, SameTurns;
    var start, n := PollStart(s, records, path, around), |records|;
    var q, whole, next := PollFirst(s, records, n, path, around), RunFirst(p, records, n, s.count, around),
                          NextPoll(s, records, path, around);
    PollStartIs(s, p, records, path, around);
    RunNames(start, records, n, s.count, PollAround(s, around));
    RunNames(p, records, n, s.count, around);
    NextPollIs(s, records, path, around);
    RunTurns(start, p, records, n, s.count, PollAround(s, around), around);
    RunTurns(p, p, records, n, s.count, around, around);
    RunKeepsTurnThere(start, records, n, s.count, PollAround(s, around));
    TurnIdIsHandedOver(q);
    assert q.data.records == q.data.records[0..];
    SameTurnsConcat(Rekeyed(s, q.sessions).records, s.stored.records, p.data.records, q.data.records,
                    whole.data.records, s.count);
    if FirstSession(p, records, n, s.count, around).Some? {
      MetadataEndsEarly(s, p, records, path, around);
    } else {
      NoMetadataKeeps(s, p, records, path, around);
    }
  }

  lemma SameTurnsConcat(a: seq<Row>, was: seq<Row>, other: seq<Row>, b: seq<Row>, rows: seq<Row>, n: nat)
    requires n <= |rows| && SameTurns(a, was) && SameTurns(was, other) && SameTurns(rows[..n], other)
    requires SameTurns(b, rows[n..])
    ensures SameTurns(a + b, rows)
  {
    assert forall k :: n <= k < |rows| ==> rows[k] == rows[n..][k - n];
    assert forall k :: 0 <= k < n ==> rows[k] == rows[..n][k];
  }

  // ---- Whole logs ----

  lemma {:induction false} RunConcat(p: Progress, a: seq<Record>, b: seq<Record>, n: nat, base: nat,
                                     around: Surroundings)
    requires n <= |b|
    ensures RunFirst(p, a + b, |a| + n, base, around) ==
            RunFirst(RunFirst(p, a, |a|, base, around), b, n, base + |a|, around)
  {
    hide Take;
    if n > 0 {
      RunConcat(p, a, b, n - 1, base, around);
      assert (a + b)[|a| + n - 1] == b[n - 1];
    } else {
      RunOfPrefix(p, a, b, |a|, base, around);
    }
  }

  lemma {:induction false} RunOfPrefix(p: Progress, a: seq<Record>, b: seq<Record>, n: nat, base: nat,
                                       around: Surroundings)
    requires n <= |a|
    ensures RunFirst(p, a + b, n, base, around) == RunFirst(p, a, n, base, around)
  {
    hide Take;
    if n > 0 {
      RunOfPrefix(p, a, b, n - 1, base, around);
    }
  }

  lemma WholeNext(polls: seq<seq<Record>>, path: string, around: Surroundings)
    requires polls != []
    ensures var init, last := Concat(polls[..|polls| - 1]), polls[|polls| - 1];
            Whole(Concat(polls), path, around) == RunFirst(Whole(init, path, around), last, |last|, |init|, around)
    ensures AllFromLog(Concat(polls)) ==>
              AllFromLog(Concat(polls[..|polls| - 1])) && AllFromLog(polls[|polls| - 1])
  {
    hide RunFirst, Start, FromLog;
    var init, last := Concat(polls[..|polls| - 1]), polls[|polls| - 1];
    RunConcat(Start(Some(path), Context(None, None), around), init, last, |last|, 0, around);
    assert Concat(polls)[..|init|] == init && Concat(polls)[|init|..] == last;
  }

  lemma StartInStep(path: string, around: Surroundings)
    ensures InStep(Polled(None, NO_DATA, 0), Start(Some(path), Context(None, None), around), path, around)
  {
    var byPath := (t: Session) => PathMatches(t.rolloutPath, Some(path), around);
    var matched := Find(around.state, byPath);
    if matched.Some? {
      var byId := (t: Session) => t.id == matched.value.id;
      assert byId(matched.value);
      assert Find(around.state, byId).Some?;
    }
    hide Find;
  }

  /** After any polls: what is carried and stored, beside the run over the same records. */
  lemma {:induction false} PollsStayInStep(polls: seq<seq<Record>>, path: string, around: Surroundings)
    requires AllFromLog(Concat(polls))
    ensures InStep(AllPolled(polls, path, around), Whole(Concat(polls), path, around), path, around)
    ensures AllPolled(polls, path, around).count == |Concat(polls)|
    ensures AllPolled(polls, path, around).context.None? <==> polls == []
  {
    hide InStep, NextPoll, Start, AllFromLog;
    if polls == [] {
      StartInStep(path, around);
    } else {
      var init, last := polls[..|polls| - 1], polls[|polls| - 1];
      WholeNext(polls, path, around);
      PollsStayInStep(init, path, around);
      StepKeeps(AllPolled(init, path, around), Whole(Concat(init), path, around), last, path, around) by {
        assert AllFromLog(last);
      }
      CountsAll(AllPolled(init, path, around), last, path, around);
    }
  }

  ghost predicate CarriesRollout(s: Polled)
  {
    var carried := PollContext(s).session; carried.Some? && carried.value.kind == Rollout
  }

  /**
   * Only a poll that reads metadata has rows renamed in the store, and it carries a session of the log from then on.
   */
  lemma RenamingEndsTheFallback(s: Polled, p: Progress, records: seq<Record>, path: string, around: Surroundings)
    requires InStep(s, p, path, around) && AllFromLog(records)
    ensures RekeyTarget(s, PollFirst(s, records, |records|, path, around).sessions).Some? || CarriesRollout(s) ==>
              CarriesRollout(NextPoll(s, records, path, around))
    ensures CarriesRollout(s) ==> forall sessions :: RekeyTarget(s, sessions).None?
  {
    var start, n := PollStart(s, records, path, around), |records|;
    hide RunFirst, PollStart, FirstSession, AllFromLog, NameOf, BringsSession, IsStateFallback, PollAround, Start,
         NextPoll, HandOver, SameTurns, Known, NamedByFallback, Early, AllName;
    if FirstSession(p, records, n, s.count, around).Some? {
      MetadataEndsEarly(s, p, records, path, around);
    } else {
      RowsWithoutMetadata(s, p, records, path, around);
      PollStartIs(s, p, records, path, around);
      FirstsAgree(start, p, records, n, s.count, PollAround(s, around), around);
      RunWithoutMetadata(start, records, n, s.count, PollAround(s, around));
      NothingToRekey(s, PollFirst(s, records, n, path, around));
    }
  }

  lemma CountsAll(s: Polled, records: seq<Record>, path: string, around: Surroundings)
    ensures NextPoll(s, records, path, around).count == s.count + |records|
  {
  }

  /** In every poll: it starts and goes on in the sessions of the whole run, and the store renames as that run does. */
  ghost predicate PollsAgree(polls: seq<seq<Record>>, path: string, around: Surroundings)
  {
    polls == [] ||
    (var init, last := polls[..|polls| - 1], polls[|polls| - 1];
     && PollsAgree(init, path, around)
     && StepAgrees(AllPolled(init, path, around), Whole(Concat(init), path, around), last, path, around))
  }

  lemma StepAgreesIff(s: Polled, p: Progress, records: seq<Record>, path: string, around: Surroundings)
    requires InStep(s, p, path, around) && AllFromLog(records)
    ensures NextPoll(s, records, path, around).stored.records ==
            RunFirst(p, records, |records|, s.count, around).data.records <==>
            s.stored.records == p.data.records && StepAgrees(s, p, records, path, around)
  {
    hide RunFirst, PollStart, FirstSession, AllFromLog, IsStateFallback, PollFirst, ChoicesAgree, StartAgrees, Start,
         NextPoll, HandOver, Rekeyed, RekeyTarget, Known, NamedByFallback, Early, Late, PollAround, SameTurns,
         RenamesAgree;
    var q, whole := PollFirst(s, records, |records|, path, around), RunFirst(p, records, |records|, s.count, around);
    EarlierRowsAgreeIff(s, p, records, path, around);
    NewRowsAgreeIff(s, p, records, path, around);
    NextPollIs(s, records, path, around);
    var stored, rows := Rekeyed(s, q.sessions).records, whole.data.records;
    assert rows == rows[..s.count] + rows[s.count..];
    assert (stored + q.data.records)[..s.count] == stored && (stored + q.data.records)[s.count..] == q.data.records;
  }

  /** Polls leave the rows one run over all records leaves if and only if each poll agrees with that run. */
  lemma {:induction false} RecordsAgreeIff(polls: seq<seq<Record>>, path: string, around: Surroundings)
    requires AllFromLog(Concat(polls))
    ensures AllPolled(polls, path, around).stored.records == Whole(Concat(polls), path, around).data.records <==>
            PollsAgree(polls, path, around)
  {
    hide InStep, NextPoll, AllFromLog, StepAgrees, Whole;
    if polls == [] {
      NoRows(path, around);
    } else {
      var init, last := polls[..|polls| - 1], polls[|polls| - 1];
      WholeNext(polls, path, around);
      PollsStayInStep(init, path, around);
      RecordsAgreeIff(init, path, around);
      StepAgreesIff(AllPolled(init, path, around), Whole(Concat(init), path, around), last, path, around);
    }
  }

  lemma NoRows(path: string, around: Surroundings)
    ensures Whole([], path, around).data.records == []
  {
  }

  // ---- The other lists ----

  /** The rows of the records that belong on a list. */
  function Pick(rows: seq<Row>, records: seq<Record>, list: List): seq<Row>
    requires |rows| == |records|
  {
    if rows == [] then []
    else
      var n := |rows| - 1;
      Pick(rows[..n], records[..n], list) + if BelongsOn(records[n], list) then [rows[n]] else []
  }

  function PickUsage(rows: seq<Row>, records: seq<Record>): seq<Usage>
    requires |rows| == |records|
  {
    if rows == [] then []
    else
      var n := |rows| - 1;
      PickUsage(rows[..n], records[..n])
      + if BelongsOn(records[n], Usages) then [Usage(rows[n], records[n].kind.tokenCount.value)] else []
  }

  /** The lists but that of usage rows hold the rows of the records that belong on them. */
  ghost predicate Follows(data: Data, records: seq<Record>)
  {
    && |data.records| == |records| && data.messages == Pick(data.records, records, Messages)
    && data.calls == Pick(data.records, records, Calls) && data.results == Pick(data.records, records, Results)
    && data.snapshots == Pick(data.records, records, Snapshots)
  }

  ghost predicate UsageFollows(data: Data, records: seq<Record>)
  {
    |data.records| == |records| && data.usage == PickUsage(data.records, records)
  }

  lemma {:induction false} PickConcat(a: seq<Row>, b: seq<Row>, first: seq<Record>, second: seq<Record>, list: List)
    requires |a| == |first| && |b| == |second|
    ensures Pick(a + b, first + second, list) == Pick(a, first, list) + Pick(b, second, list)
    ensures PickUsage(a + b, first + second) == PickUsage(a, first) + PickUsage(b, second)
  {
    hide BelongsOn;
    if b == [] {
      assert a + b == a && first + second == first;
    } else {
      var n := |b| - 1;
      PickConcat(a, b[..n], first, second[..n], list);
      assert (a + b)[..|a| + n] == a + b[..n] && (first + second)[..|a| + n] == first + second[..n];
    }
  }

  lemma {:induction false} PickRenamed(rows: seq<Row>, records: seq<Record>, from: string, to: string, list: List)
    requires |rows| == |records|
    ensures Pick(RenamedRows(rows, from, to), records, list) == RenamedRows(Pick(rows, records, list), from, to)
    ensures PickUsage(RenamedRows(rows, from, to), records) == RenamedUsage(PickUsage(rows, records), from, to)
  {
    hide BelongsOn;
    if rows != [] {
      var n := |rows| - 1;
      PickRenamed(rows[..n], records[..n], from, to, list);
      assert RenamedRows(rows, from, to)[..n] == RenamedRows(rows[..n], from, to);
    }
  }

  lemma {:induction false} PickMembers(rows: seq<Row>, records: seq<Record>, list: List)
    requires |rows| == |records|
    ensures forall row :: row in Pick(rows, records, list) ==> row in rows
    ensures forall u :: u in PickUsage(rows, records) ==> u.row in rows
  {
    hide BelongsOn;
    if rows != [] {
      var n := |rows| - 1;
      PickMembers(rows[..n], records[..n], list);
      assert rows == rows[..n] + [rows[n]];
    }
  }

  lemma RenamedFollows(data: Data, records: seq<Record>, from: string, to: string)
    ensures Follows(data, records) ==> Follows(RenamedData(data, from, to), records)
    ensures UsageFollows(data, records) ==> UsageFollows(RenamedData(data, from, to), records)
  {
    hide Pick, PickUsage, RenamedRows, RenamedUsage, RenamedTurns;
    if |data.records| == |records| {
      PickRenamed(data.records, records, from, to, Messages);
      PickRenamed(data.records, records, from, to, Calls);
      PickRenamed(data.records, records, from, to, Results);
      PickRenamed(data.records, records, from, to, Snapshots);
    }
  }

  lemma PickOne(row: Row, record: Record, list: List)
    ensures Pick([row], [record], list) == if BelongsOn(record, list) then [row] else []
    ensures PickUsage([row], [record]) ==
            if BelongsOn(record, Usages) then [Usage(row, record.kind.tokenCount.value)] else []
  {
    hide BelongsOn;
    assert [row][..0] == [] && [record][..0] == [];
    assert Pick([], [], list) == [] && PickUsage([], []) == [];
  }

  lemma AppendedFollows(a: Data, b: Data, first: seq<Record>, second: seq<Record>)
    ensures Follows(a, first) && Follows(b, second) ==> Follows(Appended(a, b), first + second)
    ensures UsageFollows(a, first) && UsageFollows(b, second) ==> UsageFollows(Appended(a, b), first + second)
  {
    hide Pick, PickUsage;
    if |a.records| == |first| && |b.records| == |second| {
      PickConcat(a.records, b.records, first, second, Messages);
      PickConcat(a.records, b.records, first, second, Calls);
      PickConcat(a.records, b.records, first, second, Results);
      PickConcat(a.records, b.records, first, second, Snapshots);
    }
  }

  /** The rows one record adds to the lists. */
  function RowsFor(record: Record, row: Row): Data
  {
    var on := (list: List) => if BelongsOn(record, list) then [row] else [];
    Data([], [row], on(Messages), on(Calls), on(Results),
         if BelongsOn(record, Usages) then [Usage(row, record.kind.tokenCount.value)] else [], on(Snapshots))
  }

  /** More rows for a record, its own row aside. */
  ghost predicate Adds(was: Data, more: Data, record: Record, row: Row)
  {
    more.(turns := was.turns) == Appended(was, RowsFor(record, row)).(records := was.records)
  }

  lemma EventAdds(p: Progress, record: Record, sequence: nat)
    requires record.kind.EventMessage?
    ensures Adds(p.data, TakeEvent(p, record, sequence).data, record,
                 Row(p.current, Fill(record.explicitTurn, p.turn), sequence))
    ensures TakeEvent(p, record, sequence).current == p.current
  {
    hide AddLifecycle;
    NothingAppended(p.data);
  }

  lemma NothingAppended(data: Data)
    ensures data.messages + [] == data.messages && data.calls + [] == data.calls && data.results + [] == data.results
    ensures data.usage + [] == data.usage && data.snapshots + [] == data.snapshots
  {
  }

  lemma ContextAdds(p: Progress, record: Record, sequence: nat)
    requires record.kind.TurnContext?
    ensures Adds(p.data, TakeTurnContext(p, record, sequence).data, record,
                 Row(p.current, record.explicitTurn, sequence))
    ensures TakeTurnContext(p, record, sequence).current == p.current
  {
    hide AddOrUpdateTurn;
    NothingAppended(p.data);
  }

  lemma ItemAdds(data: Data, record: Record, row: Row)
    requires record.kind.ResponseItem?
    ensures Adds(data, TakeItem(data, record.kind.item, row), record, row)
  {
    NothingAppended(data);
  }

  lemma OthersAdd(data: Data, record: Record, row: Row)
    requires record.kind.SessionMeta? || record.kind.Other?
    ensures Adds(data, data, record, row)
  {
    NothingAppended(data);
  }

  lemma TakeAddsRows(p: Progress, record: Record, sequence: nat, around: Surroundings)
    ensures var q := Take(p, record, sequence, around);
            var was := if BringsSession(record) then TakeSessionMeta(p, record.kind.candidate.value, around).data
                else p.data;
            exists row :: q.data == Appended(was, RowsFor(record, row)).(turns := q.data.turns)
  {
    hide TakeSessionMeta, TakeEvent, TakeTurnContext, TakeItem, RowsFor;
    var q := Take(p, record, sequence, around);
    var turn := if record.kind.TurnContext? then record.explicitTurn else Fill(record.explicitTurn, p.turn);
    var row := Row(q.current, turn, sequence);
    var was := if BringsSession(record) then TakeSessionMeta(p, record.kind.candidate.value, around).data else p.data;
    RowsForIs(record, row);
    match record.kind {
      case SessionMeta(_) => OthersAdd(was, record, row);
      case TurnContext(_) => ContextAdds(p, record, sequence);
      case ResponseItem(_) => ItemAdds(p.data, record, row);
      case EventMessage(_, _, _) => EventAdds(p, record, sequence);
      case Other => OthersAdd(was, record, row);
    }
    assert q.data == Appended(was, RowsFor(record, row)).(turns := q.data.turns);
  }

  lemma RowsForIs(record: Record, row: Row)
    ensures RowsFor(record, row).records == [row] && RowsFor(record, row).turns == []
  {
  }

  lemma RowsForFollows(record: Record, row: Row)
    ensures Follows(RowsFor(record, row), [record]) && UsageFollows(RowsFor(record, row), [record])
  {
    hide BelongsOn, Pick, PickUsage;
    PickOne(row, record, Messages);
    PickOne(row, record, Calls);
    PickOne(row, record, Results);
    PickOne(row, record, Snapshots);
  }

  lemma MetaFollows(p: Progress, candidate: Session, around: Surroundings, records: seq<Record>)
    requires Follows(p.data, records) && UsageFollows(p.data, records)
    ensures var data := TakeSessionMeta(p, candidate, around).data;
            Follows(data, records) && UsageFollows(data, records)
  {
    hide Follows, UsageFollows, RenamedData, MergeRolloutSession, Merged, RenamedParents;
    if p.current.Some? {
      RenamedFollows(p.data, records, p.current.value, Merged(p.sessions, candidate, around).id);
    }
  }

  lemma TurnsPlayNoPart(data: Data, turns: seq<Turn>, records: seq<Record>)
    ensures Follows(data.(turns := turns), records) == Follows(data, records)
    ensures UsageFollows(data.(turns := turns), records) == UsageFollows(data, records)
  {
  }

  lemma TakeFollows(p: Progress, record: Record, sequence: nat, around: Surroundings, records: seq<Record>)
    requires Follows(p.data, records) && UsageFollows(p.data, records)
    ensures var q := Take(p, record, sequence, around);
            Follows(q.data, records + [record]) && UsageFollows(q.data, records + [record])
  {
    hide Take, TakeSessionMeta, Follows, UsageFollows, RowsFor, Appended;
    TakeAddsRows(p, record, sequence, around);
    var q := Take(p, record, sequence, around);
    var was := if BringsSession(record) then TakeSessionMeta(p, record.kind.candidate.value, around).data else p.data;
    var row :| q.data == Appended(was, RowsFor(record, row)).(turns := q.data.turns);
    if BringsSession(record) {
      MetaFollows(p, record.kind.candidate.value, around, records);
    }
    RowsForFollows(record, row);
    AppendedFollows(was, RowsFor(record, row), records, [record]);
    TurnsPlayNoPart(Appended(was, RowsFor(record, row)), q.data.turns, records + [record]);
  }

  lemma {:induction false} RunFollows(p: Progress, records: seq<Record>, n: nat, base: nat, around: Surroundings)
    requires n <= |records| && p.data == NO_DATA.(turns := p.data.turns)
    ensures var q := RunFirst(p, records, n, base, around);
            Follows(q.data, records[..n]) && UsageFollows(q.data, records[..n])
  {
    hide Take;
    if n > 0 {
      RunFollows(p, records, n - 1, base, around);
      hide Follows, UsageFollows;
      TakeFollows(RunFirst(p, records, n - 1, base, around), records[n - 1], base + n, around, records[..n - 1]);
      assert records[..n - 1] + [records[n - 1]] == records[..n];
    }
  }

  lemma PolledFollows(s: Polled, records: seq<Record>, before: seq<Record>, path: string, around: Surroundings)
    requires Follows(s.stored, before)
    ensures Follows(NextPoll(s, records, path, around).stored, before + records)
    ensures var q := PollFirst(s, records, |records|, path, around);
            Follows(q.data, records) && UsageFollows(q.data, records)
  {
    hide RunFirst, Deduplicated, RekeyTarget, HandOver, Find, Follows, UsageFollows, RenamedData, Appended;
    var q := PollFirst(s, records, |records|, path, around);
    RunFollows(PollStart(s, records, path, around), records, |records|, s.count, PollAround(s, around));
    assert records[..|records|] == records;
    var target := RekeyTarget(s, q.sessions);
    TargetIsOther(s, q.sessions);
    if target.Some? {
      RenamedFollows(s.stored, before, PollContext(s).session.value.id, target.value);
    }
    assert PollRun(s, records, path, around).data == q.data.(usage := Deduplicated(q.data.usage));
    UsagePlaysNoPart(q.data, Deduplicated(q.data.usage), records);
    AppendedFollows(Rekeyed(s, q.sessions), PollRun(s, records, path, around).data, before, records);
  }

  lemma UsagePlaysNoPart(data: Data, usage: seq<Usage>, records: seq<Record>)
    ensures Follows(data.(usage := usage), records) == Follows(data, records)
  {
  }

  lemma {:induction false} StoredFollows(polls: seq<seq<Record>>, path: string, around: Surroundings)
    ensures Follows(AllPolled(polls, path, around).stored, Concat(polls))
  {
    hide NextPoll, Follows;
    if polls == [] {
      assert Follows(NO_DATA, []) by { NothingFollows(); }
    } else {
      var init, last := polls[..|polls| - 1], polls[|polls| - 1];
      StoredFollows(init, path, around);
      PolledFollows(AllPolled(init, path, around), last, Concat(init), path, around);
    }
  }

  lemma NothingFollows()
    ensures Follows(NO_DATA, []) && UsageFollows(NO_DATA, [])
  {
  }

  lemma WholeFollows(records: seq<Record>, path: string, around: Surroundings)
    ensures Follows(Whole(records, path, around).data, records)
    ensures UsageFollows(Whole(records, path, around).data, records)
  {
    hide RunFirst, Follows, UsageFollows, Find;
    RunFollows(Start(Some(path), Context(None, None), around), records, |records|, 0, around);
    assert records[..|records|] == records;
  }

  /** Without records there are no rows, whatever the path. */
  lemma BatchIs(records: seq<Record>, path: string, around: Surroundings)
    ensures var batch, whole := Batch(records, path, around).data, Whole(records, path, around).data;
            && batch.records == whole.records && batch.messages == whole.messages && batch.calls == whole.calls
            && batch.results == whole.results && batch.snapshots == whole.snapshots
            && batch.usage == Deduplicated(whole.usage)
  {
    hide Find, Deduplicated;
    if records != [] {
      hide RunFirst;
    }
  }

  /** Records, messages, calls, results and instruction snapshots of the log, but not its turns and usage rows. */
  ghost predicate SameRows(a: Data, b: Data)
  {
    && a.records == b.records && a.messages == b.messages && a.calls == b.calls && a.results == b.results
    && a.snapshots == b.snapshots
  }

  /**
   * Polls attribute every row of a log to the session and turn that one run over the whole log attributes it to if
   * and only if every poll starts in the session that run is in, unless its first record names one, every metadata
   * record leads to the same session in both, and the store renames rows as that run renames them.
   */
  lemma PollsAttributeAlikeIff(polls: seq<seq<Record>>, path: string, around: Surroundings)
    requires AllFromLog(Concat(polls))
    ensures SameRows(AllPolled(polls, path, around).stored, Batch(Concat(polls), path, around).data) <==>
            PollsAgree(polls, path, around)
  {
    hide AllPolled, Whole, Batch, PollsAgree, Pick, AllFromLog;
    RecordsAgreeIff(polls, path, around);
    StoredFollows(polls, path, around);
    WholeFollows(Concat(polls), path, around);
    BatchIs(Concat(polls), path, around);
  }
}
