/** Which turn each row of a run names, told by the records before it, src/normalize.rs. */
module RowTurns {
  import opened Wrappers
  import opened Sessions
  import opened SessionPolls
  import opened TurnHistories

  /** What a record says about the turn that is current from then on. */
  function TurnSet(record: Record): Option<Option<string>>
  {
    match record.kind
    case SessionMeta(Some(_)) => Some(None)
    case TurnContext(_) => Some(record.explicitTurn)
    case EventMessage(Some("turn_started"), _, _) =>
      if record.explicitTurn.Some? then Some(record.explicitTurn) else None
    case _ => None
  }

  function TurnsSet(records: seq<Record>): (told: seq<Option<Option<string>>>)
    ensures |told| == |records| && forall k :: 0 <= k < |records| ==> told[k] == TurnSet(records[k])
  {
    seq(|records|, k requires 0 <= k < |records| => TurnSet(records[k]))
  }

  /** The turn after the first n records: the one set last, or else the one carried into the run. */
  ghost predicate IsTurnAfter(turn: Option<string>, carried: Option<string>, records: seq<Record>, n: nat)
    requires n <= |records|
  {
    IsLast(turn, carried, TurnsSet(records[..n]))
  }

  /** A turn context names its own turn or none; every other record its own, or else the one current before it. */
  ghost predicate NamesTurn(row: Row, carried: Option<string>, records: seq<Record>, k: nat)
    requires k < |records|
  {
    if records[k].kind.TurnContext? || records[k].explicitTurn.Some? then row.turn == records[k].explicitTurn
    else IsTurnAfter(row.turn, carried, records, k)
  }

  lemma NextTurnIs(turn: Option<string>, record: Record)
    ensures NextTurn(turn, record) == if TurnSet(record).Some? then TurnSet(record).value else turn
  {
  }

  lemma TurnAfterNext(turn: Option<string>, carried: Option<string>, records: seq<Record>, n: nat)
    requires n < |records| && IsTurnAfter(turn, carried, records, n)
    ensures IsTurnAfter(NextTurn(turn, records[n]), carried, records, n + 1)
  {
    NextTurnIs(turn, records[n]);
    LastNext(turn, carried, TurnsSet(records[..n]), TurnSet(records[n]));
    assert TurnsSet(records[..n + 1]) == TurnsSet(records[..n]) + [TurnSet(records[n])];
    hide IsLast, NextTurn, TurnSet;
  }

  lemma {:induction false} RowsNameTurns(p: Progress, records: seq<Record>, n: nat, base: nat, around: Surroundings)
    requires n <= |records| && p.data.records == []
    ensures var q := RunFirst(p, records, n, base, around);
            && IsTurnAfter(q.turn, p.turn, records, n) && |q.data.records| == n
            && forall k: nat :: k < n ==>
                 NamesTurn(q.data.records[k], p.turn, records, k) && q.data.records[k].sequence == base + k + 1
  {
    hide Take, IsTurnAfter, NextTurn;
    if n > 0 {
      RowsNameTurns(p, records, n - 1, base, around);
      var q := RunFirst(p, records, n - 1, base, around);
      TurnOfTake(q, records[n - 1], base + n, around);
      TurnAfterNext(q.turn, p.turn, records, n - 1);
    } else {
      NoneSet(p.turn, records);
    }
  }

  lemma NoneSet(turn: Option<string>, records: seq<Record>)
    ensures IsTurnAfter(turn, turn, records, 0)
  {
    assert TurnsSet(records[..0]) == [];
  }

  /** The rows of a run are numbered after the base and name the turns that the records say. */
  lemma EveryRowNamesItsTurn(
      path: Option<string>, records: seq<Record>, context: Context, base: nat, around: Surroundings)
    ensures var rows := Run(path, records, context, base, around).data.records;
            var carried := if context.turn.Some? then Some(context.turn.value.id) else None;
            && |rows| == |records|
            && forall k: nat :: k < |records| ==>
                 NamesTurn(rows[k], carried, records, k) && rows[k].sequence == base + k + 1
  {
    hide RunFirst, Deduplicated, NamesTurn;
    RowsNameTurns(Start(path, context, around), records, |records|, base, around);
  }
}
