/** What a run knows about a turn, in terms of the records read and the rows they are given, src/normalize.rs. */
module TurnHistories {
  import opened Wrappers
  import opened Sessions
  import opened SessionReferences
  import opened SessionPolls

  // ---- The first and the last of what is told ----

  /** What is known already, or else the first value that is given. */
  ghost predicate IsFirst<T(!new)>(value: Option<T>, known: Option<T>, given: seq<Option<T>>)
  {
    if known.Some? then value == known
    else if value.None? then forall k :: 0 <= k < |given| ==> given[k].None?
    else exists k :: 0 <= k < |given| && given[k] == value && forall j :: 0 <= j < k ==> given[j].None?
  }

  lemma FirstNext<T(!new)>(value: Option<T>, known: Option<T>, given: seq<Option<T>>, next: Option<T>)
    requires IsFirst(value, known, given)
    ensures IsFirst(if value.Some? then value else next, known, given + [next])
  {
    var more := given + [next];
    if known.None? && value.Some? {
      var k :| 0 <= k < |given| && given[k] == value && forall j :: 0 <= j < k ==> given[j].None?;
      assert more[k] == value && forall j :: 0 <= j < k ==> more[j].None?;
    } else if known.None? && next.Some? {
      assert more[|given|] == next && forall j :: 0 <= j < |given| ==> more[j].None?;
    }
  }

  ghost predicate NoneTold<T(!new)>(told: seq<Option<T>>)
  {
    forall k :: 0 <= k < |told| ==> told[k].None?
  }

  ghost predicate LastAt<T(!new)>(told: seq<Option<T>>, k: nat)
  {
    k < |told| && told[k].Some? && forall j :: k < j < |told| ==> told[j].None?
  }

  /** What was told last, or else what was known before. */
  ghost predicate IsLast<T(!new)>(value: T, known: T, told: seq<Option<T>>)
  {
    (NoneTold(told) && value == known) || exists k: nat :: LastAt(told, k) && value == told[k].value
  }

  lemma LastNext<T(!new)>(value: T, known: T, told: seq<Option<T>>, next: Option<T>)
    requires IsLast(value, known, told)
    ensures IsLast(if next.Some? then next.value else value, known, told + [next])
  {
    var more := told + [next];
    if next.Some? {
      assert LastAt(more, |told|);
    } else if NoneTold(told) && value == known {
      assert NoneTold(more);
    } else {
      var k: nat :| LastAt(told, k) && value == told[k].value;
      assert LastAt(more, k);
    }
  }

  /** What was told last; when that is nothing, or nothing was told, the first value given since. */
  ghost predicate IsStarted<T(!new)>(value: Option<T>, known: Option<T>, told: seq<Option<Option<T>>>,
                                     given: seq<Option<T>>)
    requires |told| == |given|
  {
    || (NoneTold(told) && IsFirst(value, known, given))
    || exists k: nat :: LastAt(told, k) && IsFirst(value, told[k].value, given[k + 1..])
  }

  lemma StartedNext<T(!new)>(value: Option<T>, known: Option<T>, told: seq<Option<Option<T>>>, given: seq<Option<T>>,
                             next: Option<Option<T>>, more: Option<T>)
    requires |told| == |given| && IsStarted(value, known, told, given) && (next.None? || more.None?)
    ensures IsStarted(if next.Some? then next.value else if value.Some? then value else more, known, told + [next],
                      given + [more])
  {
    hide IsFirst;
    var nextTold, nextGiven := told + [next], given + [more];
    if next.Some? {
      assert LastAt(nextTold, |told|) && nextGiven[|told| + 1..] == [];
      JustTold(next.value);
    } else if NoneTold(told) && IsFirst(value, known, given) {
      FirstNext(value, known, given, more);
    } else {
      var k: nat :| LastAt(told, k) && IsFirst(value, told[k].value, given[k + 1..]);
      FirstNext(value, told[k].value, given[k + 1..], more);
      assert LastAt(nextTold, k) && nextGiven[k + 1..] == given[k + 1..] + [more];
    }
  }

  lemma JustTold<T(!new)>(value: Option<T>)
    ensures IsFirst(value, value, [])
  {
  }

  // ---- What a record tells about a turn ----

  predicate IsEvent(record: Record)
  {
    record.kind.EventMessage? && record.kind.lifecycle.Some?
  }

  /** Records that make a turn known: its lifecycle events and its contexts. */
  predicate Touches(record: Record)
  {
    IsEvent(record) || record.kind.TurnContext?
  }

  function EndTold(record: Record, mine: bool): Option<Option<string>>
  {
    if mine && IsEvent(record) && record.kind.lifecycle.value in ["turn_complete", "turn_aborted"]
    then Some(record.timestamp) else None
  }

  function StartTold(record: Record, mine: bool): Option<Option<string>>
  {
    if mine && IsEvent(record) && record.kind.lifecycle.value == "turn_started" then Some(record.timestamp) else None
  }

  function TimeGiven(record: Record, mine: bool): Option<string>
  {
    if mine && record.kind.TurnContext? then record.timestamp else None
  }

  function CwdGiven(record: Record, mine: bool): Option<string>
  {
    if mine && record.kind.TurnContext? && record.kind.settings.Some? then record.kind.settings.value.cwd else None
  }

  function ModelGiven(record: Record, mine: bool): Option<string>
  {
    if mine && record.kind.TurnContext? && record.kind.settings.Some? then record.kind.settings.value.model else None
  }

  function EffortGiven(record: Record, mine: bool): Option<string>
  {
    if mine && record.kind.TurnContext? && record.kind.settings.Some?
    then record.kind.settings.value.reasoningEffort else None
  }

  function EventTold(record: Record, mine: bool, sequence: nat): Option<Lifecycle>
  {
    if mine && IsEvent(record) then Some(Lifecycle(record.kind.lifecycle.value, record.timestamp, sequence)) else None
  }

  function SequenceTold(record: Record, mine: bool, sequence: nat): Option<nat>
  {
    if mine && Touches(record) then Some(sequence) else None
  }

  /** One value for each record; `mine` says which records are of the turn. */
  function Each<T>(records: seq<Record>, mine: seq<bool>, tell: (Record, bool) -> T): (told: seq<T>)
    requires |mine| == |records|
    ensures |told| == |records| && forall k :: 0 <= k < |records| ==> told[k] == tell(records[k], mine[k])
  {
    seq(|records|, k requires 0 <= k < |records| => tell(records[k], mine[k]))
  }

  function Numbered<T>(records: seq<Record>, mine: seq<bool>, base: nat, tell: (Record, bool, nat) -> T): (told: seq<T>)
    requires |mine| == |records|
    ensures |told| == |records| && forall k :: 0 <= k < |records| ==> told[k] == tell(records[k], mine[k], base + k + 1)
  {
    seq(|records|, k requires 0 <= k < |records| => tell(records[k], mine[k], base + k + 1))
  }

  function Somes<T>(told: seq<Option<T>>): seq<T>
  {
    if told == [] then []
    else Somes(told[..|told| - 1]) + if told[|told| - 1].Some? then [told[|told| - 1].value] else []
  }

  lemma SomesNext<T>(told: seq<Option<T>>, next: Option<T>)
    ensures Somes(told + [next]) == Somes(told) + if next.Some? then [next.value] else []
  {
    assert (told + [next])[..|told|] == told;
  }

  // ---- The history of a turn ----

  const UNKNOWN := Turn("", None, None, None, Settings(None, None, None), 0, [])

  ghost predicate SettingsAre(t: Turn, was: Turn, records: seq<Record>, mine: seq<bool>)
    requires |mine| == |records|
  {
    && IsFirst(t.settings.cwd, was.settings.cwd, Each(records, mine, CwdGiven))
    && IsFirst(t.settings.model, was.settings.model, Each(records, mine, ModelGiven))
    && IsFirst(t.settings.reasoningEffort, was.settings.reasoningEffort, Each(records, mine, EffortGiven))
  }

  /**
   * What is known of a turn, where `was` is what an earlier poll handed over: it was completed when its last completing
   * or aborting event says; it started when its last start event says, or, that saying nothing, when the first of its
   * contexts since says; each setting is the first one given; its events are all there, in order.
   */
  ghost predicate IsHistory(t: Turn, was: Turn, records: seq<Record>, mine: seq<bool>, base: nat)
    requires |mine| == |records|
  {
    && IsLast(t.completedAt, was.completedAt, Each(records, mine, EndTold))
    && IsStarted(t.startedAt, was.startedAt, Each(records, mine, StartTold), Each(records, mine, TimeGiven))
    && SettingsAre(t, was, records, mine)
    && t.lifecycle == was.lifecycle + Somes(Numbered(records, mine, base, EventTold))
  }

  /** It has the number of the first record that makes it known. */
  ghost predicate IsNumbered(t: Turn, was: Option<Turn>, records: seq<Record>, mine: seq<bool>, base: nat)
    requires |mine| == |records|
  {
    IsFirst(Some(t.sequence), if was.Some? then Some(was.value.sequence) else None,
            Numbered(records, mine, base, SequenceTold))
  }

  lemma EachNext<T>(records: seq<Record>, mine: seq<bool>, record: Record, m: bool, tell: (Record, bool) -> T)
    requires |mine| == |records|
    ensures Each(records + [record], mine + [m], tell) == Each(records, mine, tell) + [tell(record, m)]
  {
  }

  lemma NumberedNext<T>(records: seq<Record>, mine: seq<bool>, base: nat, record: Record, m: bool,
                        tell: (Record, bool, nat) -> T)
    requires |mine| == |records|
    ensures Numbered(records + [record], mine + [m], base, tell) ==
            Numbered(records, mine, base, tell) + [tell(record, m, base + |records| + 1)]
  {
  }

  /** What the turn is after a record of its own, or another. */
  function After(t: Turn, record: Record, m: bool, sequence: nat): Turn
  {
    if m && record.kind.TurnContext? then Updated(t, record.kind.settings, record.timestamp)
    else if m && IsEvent(record) then Lived(t, record.kind.lifecycle.value, record.timestamp, sequence)
    else t
  }

  lemma AfterKeeps(t: Turn, record: Record, m: bool, sequence: nat)
    ensures var u := After(t, record, m, sequence); u.id == t.id && u.session == t.session && u.sequence == t.sequence
  {
  }

  lemma EndNext(t: Turn, was: Turn, records: seq<Record>, mine: seq<bool>, record: Record, m: bool, sequence: nat)
    requires |mine| == |records| && IsLast(t.completedAt, was.completedAt, Each(records, mine, EndTold))
    ensures IsLast(After(t, record, m, sequence).completedAt, was.completedAt,
                   Each(records + [record], mine + [m], EndTold))
  {
    EachNext(records, mine, record, m, EndTold);
    LastNext(t.completedAt, was.completedAt, Each(records, mine, EndTold), EndTold(record, m));
    hide IsLast, Each;
  }

  lemma StartNext(t: Turn, was: Turn, records: seq<Record>, mine: seq<bool>, record: Record, m: bool, sequence: nat)
    requires |mine| == |records|
    requires IsStarted(t.startedAt, was.startedAt, Each(records, mine, StartTold), Each(records, mine, TimeGiven))
    ensures var (all, own) := (records + [record], mine + [m]);
            IsStarted(After(t, record, m, sequence).startedAt, was.startedAt, Each(all, own, StartTold),
                      Each(all, own, TimeGiven))
  {
    EachNext(records, mine, record, m, StartTold);
    EachNext(records, mine, record, m, TimeGiven);
    StartedNext(t.startedAt, was.startedAt, Each(records, mine, StartTold), Each(records, mine, TimeGiven),
                StartTold(record, m), TimeGiven(record, m));
    hide IsStarted, Each;
  }

  lemma SettingsNext(t: Turn, was: Turn, records: seq<Record>, mine: seq<bool>, record: Record, m: bool, sequence: nat)
    requires |mine| == |records| && SettingsAre(t, was, records, mine)
    ensures SettingsAre(After(t, record, m, sequence), was, records + [record], mine + [m])
  {
    EachNext(records, mine, record, m, CwdGiven);
    EachNext(records, mine, record, m, ModelGiven);
    EachNext(records, mine, record, m, EffortGiven);
    FirstNext(t.settings.cwd, was.settings.cwd, Each(records, mine, CwdGiven), CwdGiven(record, m));
    FirstNext(t.settings.model, was.settings.model, Each(records, mine, ModelGiven), ModelGiven(record, m));
    FirstNext(t.settings.reasoningEffort, was.settings.reasoningEffort, Each(records, mine, EffortGiven),
              EffortGiven(record, m));
    hide IsFirst, Each;
  }

  lemma EventsNext(t: Turn, was: Turn, records: seq<Record>, mine: seq<bool>, base: nat, record: Record, m: bool)
    requires |mine| == |records| && t.lifecycle == was.lifecycle + Somes(Numbered(records, mine, base, EventTold))
    ensures After(t, record, m, base + |records| + 1).lifecycle ==
            was.lifecycle + Somes(Numbered(records + [record], mine + [m], base, EventTold))
  {
    NumberedNext(records, mine, base, record, m, EventTold);
    SomesNext(Numbered(records, mine, base, EventTold), EventTold(record, m, base + |records| + 1));
    hide Numbered, Somes;
  }

  lemma HistoryNext(t: Turn, was: Turn, records: seq<Record>, mine: seq<bool>, base: nat, record: Record, m: bool)
    requires |mine| == |records| && IsHistory(t, was, records, mine, base)
    ensures IsHistory(After(t, record, m, base + |records| + 1), was, records + [record], mine + [m], base)
  {
    var sequence := base + |records| + 1;
    EndNext(t, was, records, mine, record, m, sequence);
    StartNext(t, was, records, mine, record, m, sequence);
    SettingsNext(t, was, records, mine, record, m, sequence);
    EventsNext(t, was, records, mine, base, record, m);
    hide IsLast, IsStarted, SettingsAre, Each, Numbered, Somes, After;
  }

  lemma NumberNext(t: Turn, was: Option<Turn>, records: seq<Record>, mine: seq<bool>, base: nat, record: Record,
                   m: bool, sequence: nat)
    requires |mine| == |records| && IsNumbered(t, was, records, mine, base)
    ensures IsNumbered(After(t, record, m, sequence), was, records + [record], mine + [m], base)
  {
    NumberedNext(records, mine, base, record, m, SequenceTold);
    FirstNext(Some(t.sequence), if was.Some? then Some(was.value.sequence) else None,
              Numbered(records, mine, base, SequenceTold), SequenceTold(record, m, base + |records| + 1));
    hide IsFirst, Numbered;
  }

  // ---- A turn that is new ----

  ghost predicate NeverTouched(records: seq<Record>, mine: seq<bool>)
    requires |mine| == |records|
  {
    forall k :: 0 <= k < |records| && mine[k] ==> !Touches(records[k])
  }

  lemma {:induction false} SomesOfNone<T(!new)>(told: seq<Option<T>>)
    requires NoneTold(told)
    ensures Somes(told) == []
  {
    if told != [] {
      SomesOfNone(told[..|told| - 1]);
    }
  }

  /** A record that is not the turn's, or does not touch any, tells nothing. */
  lemma QuietTells(record: Record, m: bool, sequence: nat)
    requires !(m && Touches(record))
    ensures EndTold(record, m).None? && StartTold(record, m).None? && TimeGiven(record, m).None?
    ensures CwdGiven(record, m).None? && ModelGiven(record, m).None? && EffortGiven(record, m).None?
    ensures EventTold(record, m, sequence).None? && SequenceTold(record, m, sequence).None?
  {
  }

  lemma NothingTold(records: seq<Record>, mine: seq<bool>, base: nat)
    requires |mine| == |records| && NeverTouched(records, mine)
    ensures NoneTold(Each(records, mine, EndTold)) && NoneTold(Each(records, mine, StartTold))
    ensures NoneTold(Each(records, mine, TimeGiven)) && NoneTold(Each(records, mine, CwdGiven))
    ensures NoneTold(Each(records, mine, ModelGiven)) && NoneTold(Each(records, mine, EffortGiven))
    ensures NoneTold(Numbered(records, mine, base, EventTold)) && NoneTold(Numbered(records, mine, base, SequenceTold))
  {
    forall k | 0 <= k < |records| ensures !(mine[k] && Touches(records[k])) {
    }
    hide Touches, NeverTouched, EndTold, StartTold, TimeGiven, CwdGiven, ModelGiven, EffortGiven, EventTold,
         SequenceTold;
    forall k | 0 <= k < |records|
      ensures EndTold(records[k], mine[k]).None? && StartTold(records[k], mine[k]).None?
      ensures TimeGiven(records[k], mine[k]).None? && CwdGiven(records[k], mine[k]).None?
      ensures ModelGiven(records[k], mine[k]).None? && EffortGiven(records[k], mine[k]).None?
      ensures EventTold(records[k], mine[k], base + k + 1).None?
      ensures SequenceTold(records[k], mine[k], base + k + 1).None?
    {
      QuietTells(records[k], mine[k], base + k + 1);
    }
  }

  lemma NoneIsFirst<T(!new)>(given: seq<Option<T>>)
    requires NoneTold(given)
    ensures IsFirst(None, None, given)
  {
  }

  lemma NewHistory(t: Turn, records: seq<Record>, mine: seq<bool>, base: nat)
    requires |mine| == |records| && NeverTouched(records, mine)
    requires t.completedAt.None? && t.startedAt.None? && t.settings == UNKNOWN.settings && t.lifecycle == []
    ensures IsHistory(t, UNKNOWN, records, mine, base)
  {
    NothingTold(records, mine, base);
    hide NoneTold, NeverTouched, Each, Numbered, IsFirst;
    NoneIsFirst(Each(records, mine, TimeGiven));
    NoneIsFirst(Each(records, mine, CwdGiven));
    NoneIsFirst(Each(records, mine, ModelGiven));
    NoneIsFirst(Each(records, mine, EffortGiven));
    SomesOfNone(Numbered(records, mine, base, EventTold));
  }

  lemma NewNumber(t: Turn, records: seq<Record>, mine: seq<bool>, base: nat, record: Record)
    requires |mine| == |records| && NeverTouched(records, mine) && Touches(record)
    requires t.sequence == base + |records| + 1
    ensures IsNumbered(t, None, records + [record], mine + [true], base)
  {
    NumberedNext(records, mine, base, record, true, SequenceTold);
    NothingTold(records, mine, base);
    var told := Numbered(records, mine, base, SequenceTold);
    hide Numbered, NeverTouched;
    FirstOfAll(told, t.sequence);
  }

  lemma FirstOfAll<T(!new)>(told: seq<Option<T>>, value: T)
    requires NoneTold(told)
    ensures IsFirst(Some(value), None, told + [Some(value)])
  {
    assert (told + [Some(value)])[|told|] == Some(value);
    assert forall j :: 0 <= j < |told| ==> (told + [Some(value)])[j].None?;
  }

  // ---- Rows of a turn ----

  /** Which records are of a turn: their rows name it and its session. */
  function Mine(rows: seq<Row>, id: string, session: Option<string>): (mine: seq<bool>)
    ensures |mine| == |rows|
    ensures forall k :: 0 <= k < |rows| ==> mine[k] == (rows[k].turn == Some(id) && rows[k].session == session)
  {
    seq(|rows|, k requires 0 <= k < |rows| => rows[k].turn == Some(id) && rows[k].session == session)
  }

  lemma MineNext(rows: seq<Row>, row: Row, id: string, session: Option<string>)
    ensures Mine(rows + [row], id, session) ==
            Mine(rows, id, session) + [row.turn == Some(id) && row.session == session]
  {
  }

  /** The turn of the list at i was handed over by an earlier poll. */
  function Carried(was: Option<Turn>, i: nat): Option<Turn>
  {
    if i == 0 then was else None
  }

  ghost predicate HasHistory(t: Turn, was: Option<Turn>, records: seq<Record>, rows: seq<Row>, base: nat)
    requires |rows| == |records|
  {
    var mine := Mine(rows, t.id, t.session);
    IsHistory(t, if was.Some? then was.value else UNKNOWN, records, mine, base)
    && IsNumbered(t, was, records, mine, base)
  }

  /** Every listed turn has its history, and every turn a record touches is listed. */
  ghost predicate AllTold(turns: seq<Turn>, was: Option<Turn>, records: seq<Record>, rows: seq<Row>, base: nat)
  {
    && |rows| == |records| && (was.Some? ==> turns != [])
    && (forall i :: 0 <= i < |turns| ==> HasHistory(turns[i], Carried(was, i), records, rows, base))
    && AllTouchedListed(turns, records, rows)
  }

  ghost predicate AllTouchedListed(turns: seq<Turn>, records: seq<Record>, rows: seq<Row>)
    requires |rows| == |records|
  {
    forall k :: 0 <= k < |records| && Touches(records[k]) && rows[k].turn.Some? ==>
      Listed(turns, rows[k].turn.value, rows[k].session)
  }

  // ---- One more record ----

  lemma NextForTurn(t: Turn, was: Option<Turn>, records: seq<Record>, rows: seq<Row>, base: nat, record: Record,
                    row: Row)
    requires |rows| == |records| && HasHistory(t, was, records, rows, base)
    ensures HasHistory(After(t, record, row.turn == Some(t.id) && row.session == t.session, base + |records| + 1), was,
                       records + [record], rows + [row], base)
  {
    hide IsHistory, IsNumbered;
    var m, mine := row.turn == Some(t.id) && row.session == t.session, Mine(rows, t.id, t.session);
    MineNext(rows, row, t.id, t.session);
    HistoryNext(t, if was.Some? then was.value else UNKNOWN, records, mine, base, record, m);
    NumberNext(t, was, records, mine, base, record, m, base + |records| + 1);
  }

  /** A record that tells nothing about any turn. */
  lemma QuietNext(turns: seq<Turn>, was: Option<Turn>, records: seq<Record>, rows: seq<Row>, base: nat, record: Record,
                  row: Row)
    requires AllTold(turns, was, records, rows, base) && (Touches(record) ==> row.turn.None?)
    ensures AllTold(turns, was, records + [record], rows + [row], base)
  {
    StillAllListed(turns, turns, records, rows, record, row);
    hide HasHistory, AllTouchedListed;
    forall i | 0 <= i < |turns|
      ensures HasHistory(turns[i], Carried(was, i), records + [record], rows + [row], base)
    {
      NextForTurn(turns[i], Carried(was, i), records, rows, base, record, row);
    }
  }

  lemma NewTurnHasHistory(turns: seq<Turn>, records: seq<Record>, rows: seq<Row>, base: nat, record: Record, row: Row)
    requires |rows| == |records| && Touches(record) && row.turn.Some? && !Listed(turns, row.turn.value, row.session)
    requires AllTouchedListed(turns, records, rows)
    ensures var sequence := base + |records| + 1;
            var t := UNKNOWN.(id := row.turn.value, session := row.session, sequence := sequence);
            HasHistory(After(t, record, true, sequence), None, records + [record], rows + [row], base)
  {
    var sequence := base + |records| + 1;
    var t := UNKNOWN.(id := row.turn.value, session := row.session, sequence := sequence);
    var mine := Mine(rows, t.id, t.session);
    assert NeverTouched(records, mine);
    NewHistory(t, records, mine, base);
    NewNumber(After(t, record, true, sequence), records, mine, base, record);
    hide IsHistory, IsNumbered;
    MineNext(rows, row, t.id, t.session);
    HistoryNext(t, UNKNOWN, records, mine, base, record, true);
  }

  /** The turns after a record that touches one of them, or makes it known. */
  function Touched(turns: seq<Turn>, record: Record, id: string, session: Option<string>, sequence: nat): seq<Turn>
  {
    var (more, i) := Ensured(turns, id, session, sequence);
    more[i := After(more[i], record, true, sequence)]
  }

  lemma EnsuredIs(turns: seq<Turn>, id: string, session: Option<string>, sequence: nat)
    ensures var (more, i) := Ensured(turns, id, session, sequence);
            if Listed(turns, id, session) then more == turns && turns[i].id == id && turns[i].session == session
            else i == |turns| && more == turns + [UNKNOWN.(id := id, session := session, sequence := sequence)]
  {
  }

  /** One turn of the list is touched, or a new one is. */
  lemma TouchedIs(turns: seq<Turn>, record: Record, id: string, session: Option<string>, sequence: nat)
    requires TurnsAreUnique(turns)
    ensures var after := Touched(turns, record, id, session, sequence);
            && |after| == |turns| + (if Listed(turns, id, session) then 0 else 1)
            && (forall i :: 0 <= i < |turns| ==>
                  after[i] == After(turns[i], record, turns[i].id == id && turns[i].session == session, sequence))
            && (!Listed(turns, id, session) ==>
                  after[|turns|] ==
                  After(UNKNOWN.(id := id, session := session, sequence := sequence), record, true, sequence))
            && Listed(after, id, session) && AllListed(turns, after)
  {
    var after := Touched(turns, record, id, session, sequence);
    var (more, at) := Ensured(turns, id, session, sequence);
    EnsuredIs(turns, id, session, sequence);
    AfterKeeps(more[at], record, true, sequence);
    hide Ensured, Updated, Lived;
    if Listed(turns, id, session) {
      forall i | 0 <= i < |turns| && i != at ensures !(turns[i].id == id && turns[i].session == session) {
      }
    }
    assert after[at].id == id && after[at].session == session;
    StillListed(turns, after, at);
  }

  lemma TouchNext(turns: seq<Turn>, was: Option<Turn>, records: seq<Record>, rows: seq<Row>, base: nat, record: Record,
                  row: Row)
    requires AllTold(turns, was, records, rows, base) && TurnsAreUnique(turns)
    requires Touches(record) && row.turn.Some?
    ensures AllTold(Touched(turns, record, row.turn.value, row.session, base + |records| + 1), was, records + [record],
                    rows + [row], base)
  {
    hide *;
    var sequence, id := base + |records| + 1, row.turn.value;
    var after := Touched(turns, record, id, row.session, sequence);
    ToldParts(turns, was, records, rows, base);
    TouchedIs(turns, record, id, row.session, sequence);
    StillAllListed(turns, after, records, rows, record, row);
    forall i | 0 <= i < |after|
      ensures HasHistory(after[i], Carried(was, i), records + [record], rows + [row], base)
    {
      TouchedHasHistory(turns, was, records, rows, base, record, row, i);
    }
    AllAreTold(after, was, records + [record], rows + [row], base);
  }

  lemma ToldParts(turns: seq<Turn>, was: Option<Turn>, records: seq<Record>, rows: seq<Row>, base: nat)
    requires AllTold(turns, was, records, rows, base)
    ensures |rows| == |records| && AllTouchedListed(turns, records, rows) && (was.Some? ==> turns != [])
    ensures forall i :: 0 <= i < |turns| ==> HasHistory(turns[i], Carried(was, i), records, rows, base)
  {
  }

  lemma AllAreTold(turns: seq<Turn>, was: Option<Turn>, records: seq<Record>, rows: seq<Row>, base: nat)
    requires |rows| == |records| && (was.Some? ==> turns != []) && AllTouchedListed(turns, records, rows)
    requires forall i :: 0 <= i < |turns| ==> HasHistory(turns[i], Carried(was, i), records, rows, base)
    ensures AllTold(turns, was, records, rows, base)
  {
  }

  lemma TouchedHasHistory(turns: seq<Turn>, was: Option<Turn>, records: seq<Record>, rows: seq<Row>, base: nat,
                          record: Record, row: Row, i: nat)
    requires AllTold(turns, was, records, rows, base) && TurnsAreUnique(turns) && Touches(record) && row.turn.Some?
    requires i < |Touched(turns, record, row.turn.value, row.session, base + |records| + 1)|
    ensures |rows| == |records|
    ensures HasHistory(Touched(turns, record, row.turn.value, row.session, base + |records| + 1)[i], Carried(was, i),
                       records + [record], rows + [row], base)
  {
    hide *;
    var sequence, id := base + |records| + 1, row.turn.value;
    ToldParts(turns, was, records, rows, base);
    TouchedIs(turns, record, id, row.session, sequence);
    if i < |turns| {
      assert HasHistory(turns[i], Carried(was, i), records, rows, base);
      NextForTurn(turns[i], Carried(was, i), records, rows, base, record, row);
      assert (row.turn == Some(turns[i].id)) == (turns[i].id == id);
    } else {
      NewTurnHasHistory(turns, records, rows, base, record, row);
      OthersAreNew(turns, was, i);
    }
  }

  lemma OthersAreNew(turns: seq<Turn>, was: Option<Turn>, i: nat)
    requires (was.Some? ==> turns != []) && i >= |turns|
    ensures Carried(was, i) == None
  {
  }

  lemma StillAllListed(turns: seq<Turn>, after: seq<Turn>, records: seq<Record>, rows: seq<Row>, record: Record,
                       row: Row)
    requires |rows| == |records| && AllTouchedListed(turns, records, rows) && AllListed(turns, after)
    requires Touches(record) && row.turn.Some? ==> Listed(after, row.turn.value, row.session)
    ensures AllTouchedListed(after, records + [record], rows + [row])
  {
    hide Touches, Listed;
  }

  lemma StillListed(turns: seq<Turn>, after: seq<Turn>, at: nat)
    requires |turns| <= |after| && at < |after|
    requires forall i :: 0 <= i < |turns| ==> after[i].id == turns[i].id && after[i].session == turns[i].session
    ensures AllListed(turns, after) && Listed(after, after[at].id, after[at].session)
  {
    forall id, session | Listed(turns, id, session) ensures Listed(after, id, session) {
      var i :| 0 <= i < |turns| && turns[i].id == id && turns[i].session == session;
      assert after[i].id == id;
    }
  }

  // ---- Renaming ----

  ghost predicate OnlyOf(turns: seq<Turn>, rows: seq<Row>, session: string)
  {
    && (forall i :: 0 <= i < |turns| ==> turns[i].session.None? || turns[i].session == Some(session))
    && forall k :: 0 <= k < |rows| ==> rows[k].session.None? || rows[k].session == Some(session)
  }

  /** Under another name the same records are of a turn. */
  lemma RenamedTold(turns: seq<Turn>, was: Option<Turn>, records: seq<Record>, rows: seq<Row>, base: nat, from: string,
                    to: string)
    requires AllTold(turns, was, records, rows, base) && OnlyOf(turns, rows, from)
    ensures AllTold(RenamedTurns(turns, from, to), was, records, RenamedRows(rows, from, to), base)
  {
    hide IsHistory, IsNumbered;
    var after, renamed := RenamedTurns(turns, from, to), RenamedRows(rows, from, to);
    forall i | 0 <= i < |turns| ensures HasHistory(after[i], Carried(was, i), records, renamed, base) {
      assert HasHistory(turns[i], Carried(was, i), records, rows, base);
      assert Mine(renamed, after[i].id, after[i].session) == Mine(rows, turns[i].id, turns[i].session);
      OtherSession(turns[i], after[i].session, if Carried(was, i).Some? then Carried(was, i).value else UNKNOWN,
                   Carried(was, i), records, Mine(rows, turns[i].id, turns[i].session), base);
    }
    hide HasHistory;
    forall k | 0 <= k < |records| && Touches(records[k]) && renamed[k].turn.Some?
      ensures Listed(after, renamed[k].turn.value, renamed[k].session)
    {
      var i :| 0 <= i < |turns| && turns[i].id == rows[k].turn.value && turns[i].session == rows[k].session;
      assert after[i].id == renamed[k].turn.value;
    }
  }

  lemma OtherSession(t: Turn, session: Option<string>, was: Turn, carried: Option<Turn>, records: seq<Record>,
                     mine: seq<bool>, base: nat)
    requires |mine| == |records| && IsHistory(t, was, records, mine, base)
    requires IsNumbered(t, carried, records, mine, base)
    ensures IsHistory(t.(session := session), was, records, mine, base)
    ensures IsNumbered(t.(session := session), carried, records, mine, base)
  {
    hide IsFirst, IsLast, IsStarted;
  }

  // ---- Runs ----

  /** While a state session is the current one, every turn is of it, or of none. */
  ghost predicate TurnsOfFallback(p: Progress)
  {
    IsStateFallback(p) ==>
      forall i :: 0 <= i < |p.data.turns| ==> p.data.turns[i].session.None? || p.data.turns[i].session == p.current
  }

  ghost predicate Told(p: Progress, was: Option<Turn>, records: seq<Record>, base: nat)
  {
    && Known(p) && NamedByFallback(p) && TurnsOfFallback(p) && TurnsAreUnique(p.data.turns)
    && AllTold(p.data.turns, was, records, p.data.records, base)
  }

  lemma UniqueAfter(turns: seq<Turn>, record: Record, id: string, session: Option<string>, sequence: nat)
    requires TurnsAreUnique(turns)
    ensures TurnsAreUnique(Touched(turns, record, id, session, sequence))
    ensures var after := Touched(turns, record, id, session, sequence);
            forall i :: 0 <= i < |after| ==>
              after[i].session == session || (i < |turns| && after[i].session == turns[i].session)
  {
    EnsuredKeepsTurns(turns, id, session, sequence);
    var (more, i) := Ensured(turns, id, session, sequence);
    ChangedKeepsTurns(more, i, After(more[i], record, true, sequence));
    EnsuredIs(turns, id, session, sequence);
  }

  lemma TurnsAfter(p: Progress, record: Record, sequence: nat, around: Surroundings)
    requires !BringsSession(record)
    ensures var turn := TurnOf(p.turn, record);
            Take(p, record, sequence, around).data.turns ==
            if Touches(record) && turn.Some? then Touched(p.data.turns, record, turn.value, p.current, sequence)
            else p.data.turns
  {
    hide Ensured, Updated, Lived;
  }

  lemma MetaTurns(p: Progress, record: Record, sequence: nat, around: Surroundings)
    requires BringsSession(record)
    ensures var q, id := Take(p, record, sequence, around), Merged(p.sessions, record.kind.candidate.value, around).id;
            var data := if IsStateFallback(p) && p.current.value != id then RenamedData(p.data, p.current.value, id)
                        else p.data;
            && q.data.turns == data.turns
            && exists row: Row :: q.data.records == data.records + [row]
  {
    hide MergeRolloutSession, Merged, RenamedParents, RenamedTurns, RenamedRows, RenamedUsage;
    var q := Take(p, record, sequence, around);
    var r := TakeSessionMeta(p, record.kind.candidate.value, around);
    assert q.data.records == r.data.records + [Row(q.current, Fill(record.explicitTurn, p.turn), sequence)];
  }

  lemma UniqueRenamed(turns: seq<Turn>, rows: seq<Row>, from: string, to: string)
    requires TurnsAreUnique(turns) && OnlyOf(turns, rows, from)
    ensures TurnsAreUnique(RenamedTurns(turns, from, to))
  {
    TurnsRenamed(turns, from, to);
  }

  lemma MetaTells(p: Progress, was: Option<Turn>, records: seq<Record>, record: Record, base: nat, around: Surroundings)
    requires Told(p, was, records, base) && BringsSession(record)
    ensures var q := Take(p, record, base + |records| + 1, around);
            TurnsAreUnique(q.data.turns)
            && AllTold(q.data.turns, was, records + [record], q.data.records, base)
  {
    var q := Take(p, record, base + |records| + 1, around);
    MetaTurns(p, record, base + |records| + 1, around);
    hide Take, AllTold, Merged, Known, TurnsAreUnique, RenamedTurns, RenamedRows, RenamedUsage;
    var id := Merged(p.sessions, record.kind.candidate.value, around).id;
    var data := if IsStateFallback(p) && p.current.value != id then RenamedData(p.data, p.current.value, id)
        else p.data;
    var row: Row :| q.data.records == data.records + [row];
    if IsStateFallback(p) && p.current.value != id {
      assert OnlyOf(p.data.turns, p.data.records, p.current.value);
      UniqueRenamed(p.data.turns, p.data.records, p.current.value, id);
      RenamedTold(p.data.turns, was, records, p.data.records, base, p.current.value, id);
    }
    QuietNext(data.turns, was, records, data.records, base, record, row);
  }

  lemma OtherTells(p: Progress, was: Option<Turn>, records: seq<Record>, record: Record, base: nat,
                   around: Surroundings)
    requires TurnsAreUnique(p.data.turns) && AllTold(p.data.turns, was, records, p.data.records, base)
    requires !BringsSession(record)
    ensures var q := Take(p, record, base + |records| + 1, around);
            && AllTold(q.data.turns, was, records + [record], q.data.records, base) && TurnsAreUnique(q.data.turns)
            && forall i :: 0 <= i < |q.data.turns| ==>
                 q.data.turns[i].session == p.current
                 || (i < |p.data.turns| && q.data.turns[i].session == p.data.turns[i].session)
  {
    hide *;
    var sequence, turn := base + |records| + 1, TurnOf(p.turn, record);
    TurnsAfter(p, record, sequence, around);
    OtherRow(p, record, sequence, around);
    var row := Row(p.current, turn, sequence);
    if Touches(record) && turn.Some? {
      UniqueAfter(p.data.turns, record, turn.value, p.current, sequence);
      TouchNext(p.data.turns, was, records, p.data.records, base, record, row);
    } else {
      QuietNext(p.data.turns, was, records, p.data.records, base, record, row);
    }
  }

  lemma OtherRow(p: Progress, record: Record, sequence: nat, around: Surroundings)
    requires !BringsSession(record)
    ensures Take(p, record, sequence, around).data.records ==
            p.data.records + [Row(p.current, TurnOf(p.turn, record), sequence)]
  {
    hide AddOrUpdateTurn, AddLifecycle;
  }

  lemma StillOfFallback(p: Progress, q: Progress)
    requires TurnsOfFallback(p) && (IsStateFallback(q) ==> IsStateFallback(p) && q.current == p.current)
    requires IsStateFallback(q) ==> forall i :: 0 <= i < |q.data.turns| ==>
               q.data.turns[i].session == p.current
               || (i < |p.data.turns| && q.data.turns[i].session == p.data.turns[i].session)
    ensures TurnsOfFallback(q)
  {
    hide IsStateFallback;
  }

  lemma TakeTells(p: Progress, was: Option<Turn>, records: seq<Record>, record: Record, base: nat, around: Surroundings)
    requires Told(p, was, records, base) && FromLog(record)
    ensures Told(Take(p, record, base + |records| + 1, around), was, records + [record], base)
  {
    hide *;
    var sequence := base + |records| + 1;
    PartsOfTold(p, was, records, base);
    var q := Take(p, record, sequence, around);
    TakeNames(p, record, sequence, around);
    if BringsSession(record) {
      MetaTells(p, was, records, record, base, around);
    } else {
      OtherTells(p, was, records, record, base, around);
    }
    StillOfFallback(p, q);
    IsTold(q, was, records + [record], base);
  }

  lemma PartsOfTold(p: Progress, was: Option<Turn>, records: seq<Record>, base: nat)
    requires Told(p, was, records, base)
    ensures Known(p) && NamedByFallback(p) && TurnsOfFallback(p) && TurnsAreUnique(p.data.turns)
    ensures AllTold(p.data.turns, was, records, p.data.records, base)
  {
  }

  lemma IsTold(p: Progress, was: Option<Turn>, records: seq<Record>, base: nat)
    requires Known(p) && NamedByFallback(p) && TurnsOfFallback(p) && TurnsAreUnique(p.data.turns)
    requires AllTold(p.data.turns, was, records, p.data.records, base)
    ensures Told(p, was, records, base)
  {
  }

  lemma {:induction false} RunTells(start: Progress, was: Option<Turn>, records: seq<Record>, n: nat, base: nat,
                                    around: Surroundings)
    requires n <= |records| && Told(start, was, [], base) && AllFromLog(records)
    ensures Told(RunFirst(start, records, n, base, around), was, records[..n], base)
  {
    hide Told, Take, FromLog;
    if n > 0 {
      RunTells(start, was, records, n - 1, base, around);
      assert records[..n] == records[..n - 1] + [records[n - 1]];
      TakeTells(RunFirst(start, records, n - 1, base, around), was, records[..n - 1], records[n - 1], base, around);
    } else {
      assert records[..0] == [];
    }
  }

  /** A carried turn is of the state session the run starts in, or of none, if the run starts in a state session. */
  ghost predicate CarriesTurnOfFallback(path: Option<string>, context: Context, around: Surroundings)
  {
    var start := Start(path, context, around);
    IsStateFallback(start) && context.turn.Some? ==>
      context.turn.value.session.None? || context.turn.value.session == start.current
  }

  lemma StartTells(path: Option<string>, context: Context, base: nat, around: Surroundings)
    requires CarriesTurnOfFallback(path, context, around)
    ensures Told(Start(path, context, around), context.turn, [], base)
  {
    var start := Start(path, context, around);
    var byPath := (t: Session) => PathMatches(t.rolloutPath, path, around);
    var matched := Find(around.state, byPath);
    if matched.Some? {
      var byId := (t: Session) => t.id == matched.value.id;
      assert byId(matched.value);
      assert Find(around.state, byId).Some?;
    }
    hide Find;
    if context.turn.Some? {
      CarriedHasHistory(context.turn.value, base);
    }
  }

  lemma CarriedHasHistory(t: Turn, base: nat)
    ensures HasHistory(t, Some(t), [], [], base)
  {
    var mine := Mine([], t.id, t.session);
    assert NoneTold(Each([], mine, EndTold)) && NoneTold(Each([], mine, StartTold));
    assert t.lifecycle + [] == t.lifecycle;
  }

  /**
   * After any run each turn, a carried one first, is what the records that its rows name tell about it, and every turn
   * that a lifecycle event or a context names is listed, none twice.
   */
  lemma TurnsTellTheirHistory(
      path: Option<string>, records: seq<Record>, context: Context, base: nat, around: Surroundings)
    requires AllFromLog(records) && CarriesTurnOfFallback(path, context, around)
    ensures var data := Run(path, records, context, base, around).data;
            && |data.records| == |records| && TurnsAreUnique(data.turns)
            && (forall i :: 0 <= i < |data.turns| ==>
                  HasHistory(data.turns[i], Carried(context.turn, i), records, data.records, base))
            && (forall k :: 0 <= k < |records| && Touches(records[k]) && data.records[k].turn.Some? ==>
                  Listed(data.turns, data.records[k].turn.value, data.records[k].session))
  {
    hide RunFirst, Start, HasHistory, AllFromLog, Deduplicated;
    StartTells(path, context, base, around);
    RunTells(Start(path, context, around), context.turn, records, |records|, base, around);
    assert records[..|records|] == records;
  }

  /** What a run hands over while it is still in a state session meets the condition. */
  lemma HandOverCarries(path: Option<string>, records: seq<Record>, context: Context, base: nat, around: Surroundings,
                        next: Option<string>, nextAround: Surroundings)
    requires AllFromLog(records) && CarriesTurnOfFallback(path, context, around)
    ensures var p := Run(path, records, context, base, around);
            p.current.Some? ==> CarriesTurnOfFallback(next, HandOver(p), nextAround)
  {
    hide RunFirst, AllFromLog, Deduplicated, CarriesTurnOfFallback, AllTold;
    StartTells(path, context, base, around);
    RunTells(Start(path, context, around), context.turn, records, |records|, base, around);
    FinishedAlike(RunFirst(Start(path, context, around), records, |records|, base, around));
    if Run(path, records, context, base, around).current.Some? {
      HandedOver(Run(path, records, context, base, around), next, nextAround);
    }
  }

  lemma FinishedAlike(p: Progress)
    ensures Known(p) && TurnsOfFallback(p) ==> Known(Finished(p)) && TurnsOfFallback(Finished(p))
  {
    hide Deduplicated;
  }

  lemma HandedOver(p: Progress, next: Option<string>, around: Surroundings)
    requires Known(p) && TurnsOfFallback(p) && p.current.Some?
    ensures CarriesTurnOfFallback(next, HandOver(p), around)
  {
    if HandOver(p).turn.Some? {
      assert HandOver(p).turn.value in p.data.turns;
    }
  }
}
