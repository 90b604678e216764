/** The incremental rollout monitor of src/monitor.rs: parsing, identity window, cursor, store. */
module Monitor {
  import opened Wrappers
  import opened Bytes
  import opened Slices
  import opened JsonlReader
  import opened MonitorScan

  /** What the JSON layer makes of one line; blank lines are skipped. */
  datatype Decoded = Blank | Malformed | Decoded(identity: Option<string>, body: string)

  type Decoder = Bytes -> Decoded

  datatype Record = Record(line: nat, identity: Option<string>, body: string)

  datatype Diagnostic = MalformedJson(line: nat) | OversizedLine(line: nat, byteCount: nat)

  datatype ParseResult = ParseResult(records: seq<Record>, diagnostics: seq<Diagnostic>)

  datatype Options = Options(maxLineBytes: nat, maxPollBytes: nat, maxEventIdentities: nat)

  // ---- Parsing ----

  function ParseLine(line: ReadLine, decode: Decoder): ParseResult
  {
    match line
    case Oversized(n, byteCount) => ParseResult([], [OversizedLine(n, byteCount)])
    case Line(n, bytes) =>
      match decode(bytes)
      case Blank => ParseResult([], [])
      case Malformed => ParseResult([], [MalformedJson(n)])
      case Decoded(identity, body) => ParseResult([Record(n, identity, body)], [])
  }

  function Join(a: ParseResult, b: ParseResult): ParseResult
  {
    ParseResult(a.records + b.records, a.diagnostics + b.diagnostics)
  }

  lemma JoinAssoc(a: ParseResult, b: ParseResult, c: ParseResult)
    ensures Join(Join(a, b), c) == Join(a, Join(b, c))
  {
    Assoc(a.records, b.records, c.records);
    Assoc(a.diagnostics, b.diagnostics, c.diagnostics);
  }

  function ParseLines(lines: seq<ReadLine>, decode: Decoder): ParseResult
  {
    if lines == [] then ParseResult([], [])
    else Join(ParseLines(lines[..|lines| - 1], decode), ParseLine(lines[|lines| - 1], decode))
  }

  /** One parse of a byte range whose first line has number `lineOffset + 1`. */
  function Parse(s: Bytes, lineOffset: nat, limit: nat, decode: Decoder): ParseResult
  {
    ParseLines(Lines(s, limit, lineOffset + 1), decode)
  }

  lemma ParseLinesSnoc(lines: seq<ReadLine>, last: ReadLine, decode: Decoder)
    ensures ParseLines(lines + [last], decode) == Join(ParseLines(lines, decode), ParseLine(last, decode))
  {
    assert (lines + [last])[..|lines|] == lines;
  }

  lemma {:induction false} ParseLinesConcat(a: seq<ReadLine>, b: seq<ReadLine>, decode: Decoder)
    ensures ParseLines(a + b, decode) == Join(ParseLines(a, decode), ParseLines(b, decode))
  {
    if b == [] {
      assert a + b == a;
    } else {
      hide ParseLines, ParseLine, Join;
      var init, last := b[..|b| - 1], b[|b| - 1];
      Snoc(b);
      Assoc(a, init, [last]);
      ParseLinesConcat(a, init, decode);
      ParseLinesSnoc(init, last, decode);
      ParseLinesSnoc(a + init, last, decode);
      JoinAssoc(ParseLines(a, decode), ParseLines(init, decode), ParseLine(last, decode));
    }
  }

  lemma ParseConcat(a: Bytes, b: Bytes, lineOffset: nat, limit: nat, decode: Decoder)
    requires WholeLines(a)
    ensures Parse(a + b, lineOffset, limit, decode)
         == Join(Parse(a, lineOffset, limit, decode), Parse(b, lineOffset + CountNewlines(a), limit, decode))
  {
    hide Lines, ParseLines, CountNewlines;
    LinesConcat(a, b, limit, lineOffset + 1);
    ParseLinesConcat(Lines(a, limit, lineOffset + 1), Lines(b, limit, lineOffset + 1 + CountNewlines(a)), decode);
  }

  lemma ParseNothing(lineOffset: nat, limit: nat, decode: Decoder)
    ensures Parse([], lineOffset, limit, decode) == ParseResult([], [])
  {
  }

  /** The reader of a window counts its own lines; the offset reader shifts the numbers. */
  function Shift(line: ReadLine, offset: nat): ReadLine
  {
    match line
    case Line(n, bytes) => Line(n + offset, bytes)
    case Oversized(n, byteCount) => Oversized(n + offset, byteCount)
  }

  lemma NothingToParse(decode: Decoder, limit: nat, line: nat)
    ensures ParseLines([], decode) == ParseResult([], []) && Lines([], limit, line) == []
  {
  }

  method ParseWindow(file: Bytes, start: nat, end: nat, lineOffset: nat, limit: nat, decode: Decoder)
    returns (result: ParseResult)
    requires start <= end <= |file|
    ensures result == Parse(file[start..end], lineOffset, limit, decode)
  {
    hide Lines, ParseLines, Head, Rest, ParseLine, Join;
    var window := file[start..end];
    var reader := new PlainJsonlReader(window, limit);
    result := ParseResult([], []);
    ghost var done: seq<ReadLine> := [];
    NothingToParse(decode, limit, lineOffset + 1);
    while true
      invariant fresh(reader) && reader.maxLineBytes == limit
      invariant done + Lines(reader.input, limit, reader.nextLine + lineOffset) == Lines(window, limit, lineOffset + 1)
      invariant result == ParseLines(done, decode)
      decreases |reader.input|
    {
      ghost var input, number := reader.input, reader.nextLine;
      NothingToParse(decode, limit, number + lineOffset);
      var next := reader.NextLine();
      if next == None {
        assert done + [] == done;
        return;
      }
      LinesUnfold(input, limit, number + lineOffset);
      var line := Shift(next.value, lineOffset);
      ParseLinesSnoc(done, line, decode);
      Assoc(done, [line], Lines(reader.input, limit, reader.nextLine + lineOffset));
      RestIsShorter(input);
      done := done + [line];
      result := Join(result, ParseLine(line, decode));
    }
  }

  // ---- The bounded window of recent identities ----

  datatype Filtered = Filtered(accepted: seq<Record>, recent: seq<string>, skipped: seq<nat>)

  function Remember(recent: seq<string>, identity: string, limit: nat): seq<string>
  {
    if limit == 0 then recent else LastN(recent + [identity], limit)
  }

  function FilterStep(f: Filtered, record: Record, limit: nat): Filtered
  {
    match record.identity
    case None => f.(accepted := f.accepted + [record])
    case Some(identity) =>
      if identity in f.recent then f.(skipped := f.skipped + [record.line])
      else f.(accepted := f.accepted + [record], recent := Remember(f.recent, identity, limit))
  }

  function Filter(records: seq<Record>, recent: seq<string>, limit: nat): Filtered
  {
    if records == [] then Filtered([], recent, [])
    else FilterStep(Filter(records[..|records| - 1], recent, limit), records[|records| - 1], limit)
  }

  lemma FilterSnoc(records: seq<Record>, last: Record, recent: seq<string>, limit: nat)
    ensures Filter(records + [last], recent, limit) == FilterStep(Filter(records, recent, limit), last, limit)
  {
    assert (records + [last])[..|records|] == records;
  }

  /** Two runs of the filter, the second starting with the window the first left. */
  function Chain(f: Filtered, g: Filtered): Filtered
  {
    Filtered(f.accepted + g.accepted, g.recent, f.skipped + g.skipped)
  }

  lemma StepAfterChain(f: Filtered, g: Filtered, last: Record, limit: nat)
    ensures FilterStep(Chain(f, g), last, limit) == Chain(f, FilterStep(g, last, limit))
  {
    Assoc(f.accepted, g.accepted, [last]);
    Assoc(f.skipped, g.skipped, [last.line]);
  }

  lemma {:induction false} FilterConcat(a: seq<Record>, b: seq<Record>, recent: seq<string>, limit: nat)
    ensures var f := Filter(a, recent, limit);
            Filter(a + b, recent, limit) == Chain(f, Filter(b, f.recent, limit))
  {
    if b == [] {
      assert a + b == a;
    } else {
      hide Filter, FilterStep, Chain;
      var init, last := b[..|b| - 1], b[|b| - 1];
      Snoc(b);
      Assoc(a, init, [last]);
      FilterConcat(a, init, recent, limit);
      FilterSnoc(init, last, Filter(a, recent, limit).recent, limit);
      FilterSnoc(a + init, last, recent, limit);
      StepAfterChain(Filter(a, recent, limit), Filter(init, Filter(a, recent, limit).recent, limit), last, limit);
    }
  }

  /** The identities of the given records, in order. */
  function Identities(records: seq<Record>): seq<string>
  {
    if records == [] then []
    else
      var rest := Identities(records[..|records| - 1]);
      match records[|records| - 1].identity
      case None => rest
      case Some(identity) => rest + [identity]
  }

  ghost predicate NoRepeats<T>(s: seq<T>)
  {
    forall i, j :: 0 <= i < j < |s| ==> s[i] != s[j]
  }

  lemma IdentitiesSnoc(records: seq<Record>, last: Record)
    ensures Identities(records + [last]) ==
            Identities(records) + if last.identity.Some? then [last.identity.value] else []
  {
    assert (records + [last])[..|records|] == records;
  }

  lemma RememberKeepsWindow(ids: seq<string>, identity: string, limit: nat)
    requires NoRepeats(LastN(ids, limit)) && identity !in LastN(ids, limit)
    ensures Remember(LastN(ids, limit), identity, limit) == LastN(ids + [identity], limit)
    ensures NoRepeats(LastN(ids + [identity], limit))
  {
    if limit > 0 {
      assert LastN(ids, limit) + [identity] ==
             (ids + [identity])[if |ids| <= limit then 0 else |ids| - limit..];
    }
  }

  /** The window holds the last accepted identities, at most `limit` of them, none twice. */
  lemma {:induction false} WindowHoldsLastIdentities(records: seq<Record>, limit: nat)
    ensures var f := Filter(records, [], limit);
            f.recent == LastN(Identities(f.accepted), limit) && NoRepeats(f.recent)
  {
    if records != [] {
      hide Identities, Remember, LastN;
      var init, last := records[..|records| - 1], records[|records| - 1];
      WindowHoldsLastIdentities(init, limit);
      var f := Filter(init, [], limit);
      IdentitiesSnoc(f.accepted, last);
      if last.identity.Some? && last.identity.value !in f.recent {
        RememberKeepsWindow(Identities(f.accepted), last.identity.value, limit);
      }
    } else {
      assert Identities([]) == [];
    }
  }

  /** Record i repeats none of the `limit` identities that came last before it. */
  ghost predicate NewAt(records: seq<Record>, i: nat, limit: nat)
    requires i < |records|
  {
    records[i].identity.Some? ==> records[i].identity.value !in LastN(Identities(records[..i]), limit)
  }

  ghost predicate NoRecentRepeat(records: seq<Record>, limit: nat)
  {
    forall i :: 0 <= i < |records| ==> NewAt(records, i, limit)
  }

  lemma NoRecentRepeatSnoc(init: seq<Record>, last: Record, limit: nat)
    ensures NoRecentRepeat(init + [last], limit) <==>
            NoRecentRepeat(init, limit) && NewAt(init + [last], |init|, limit)
  {
    hide Identities, LastN;
    var records := init + [last];
    assert forall i :: 0 <= i < |init| ==> records[i] == init[i] && records[..i] == init[..i];
    assert forall i :: 0 <= i < |init| ==> NewAt(records, i, limit) == NewAt(init, i, limit);
  }

  lemma AcceptsLastIff(f: Filtered, init: seq<Record>, last: Record, limit: nat)
    requires f.recent == LastN(Identities(f.accepted), limit) && |f.accepted| <= |init|
    ensures FilterStep(f, last, limit).accepted == init + [last] <==>
            f.accepted == init && NewAt(init + [last], |init|, limit)
    ensures var g := FilterStep(f, last, limit);
            |g.accepted| + |g.skipped| == |f.accepted| + |f.skipped| + 1
  {
    hide Identities, LastN;
    assert (init + [last])[..|init|] == init;
    if FilterStep(f, last, limit).accepted == init + [last] {
      assert f.accepted == FilterStep(f, last, limit).accepted[..|init|];
    }
  }

  /** The monitor accepts the whole stream, as a batch run does, exactly when no identity recurs inside the window. */
  lemma {:induction false} AcceptsEverythingIff(records: seq<Record>, limit: nat)
    ensures Filter(records, [], limit).accepted == records <==> NoRecentRepeat(records, limit)
    ensures |Filter(records, [], limit).accepted| + |Filter(records, [], limit).skipped| == |records|
  {
    if records != [] {
      hide Identities, LastN, NoRecentRepeat, Remember, NewAt, Filter, FilterStep;
      var n := |records| - 1;
      var init, last := records[..n], records[n];
      AcceptsEverythingIff(init, limit);
      WindowHoldsLastIdentities(init, limit);
      Snoc(records);
      NoRecentRepeatSnoc(init, last, limit);
      FilterSnoc(init, last, [], limit);
      AcceptsLastIff(Filter(init, [], limit), init, last, limit);
    }
  }

  // ---- The store and the numbered rows ----

  datatype Row = Row(sequence: nat, record: Record)

  datatype StoreState = StoreState(rows: seq<Row>, diagnostics: seq<Diagnostic>)

  function Number(records: seq<Record>, start: nat): seq<Row>
  {
    seq(|records|, i requires 0 <= i < |records| => Row(start + i + 1, records[i]))
  }

  /** The derived rows of one source. */
  class Store {
    var rows: seq<Row>
    var diagnostics: seq<Diagnostic>

    function State(): StoreState
      reads this
    {
      StoreState(rows, diagnostics)
    }

    method IngestCanonical(rows: seq<Row>, diagnostics: seq<Diagnostic>)
      modifies this
      ensures State() == StoreState(rows, diagnostics)
    {
      this.rows := rows;
      this.diagnostics := diagnostics;
    }

    method AppendCanonical(rows: seq<Row>, diagnostics: seq<Diagnostic>)
      modifies this
      ensures State() == StoreState(old(this.rows) + rows, old(this.diagnostics) + diagnostics)
    {
      this.rows := this.rows + rows;
      this.diagnostics := this.diagnostics + diagnostics;
    }

    /** Nothing is written when a poll that replaces nothing brings nothing. */
    method Write(rows: seq<Row>, diagnostics: seq<Diagnostic>, replace: bool) returns (written: bool)
      modifies this
      ensures written == (replace || rows != [] || diagnostics != [])
      ensures State() == if replace then StoreState(rows, diagnostics)
                         else StoreState(old(this.rows) + rows, old(this.diagnostics) + diagnostics)
    {
      written := replace || rows != [] || diagnostics != [];
      if written {
        if replace {
          IngestCanonical(rows, diagnostics);
        } else {
          AppendCanonical(rows, diagnostics);
        }
      }
    }
  }

  /** The store and identity window a single parse of `prefix` would leave. */
  datatype Ingested = Ingested(store: StoreState, recent: seq<string>)

  function Ingest(o: Options, decode: Decoder, prefix: Bytes): Ingested
  {
    var parsed := Parse(prefix, 0, o.maxLineBytes, decode);
    var f := Filter(parsed.records, [], o.maxEventIdentities);
    Ingested(StoreState(Number(f.accepted, 0), parsed.diagnostics), f.recent)
  }

  // ---- The monitor ----

  datatype Cursor = Cursor(
    sourceIdentity: string, offset: nat, line: nat, sequence: nat, digest: bv64, recent: seq<string>)

  datatype MonitorState = MonitorState(cursor: Cursor, initial: bool, recent: seq<string>)

  datatype Transition = Truncated | Rotated

  datatype Status = Idle | Updated | PartialLine | DuplicateIdentity | SourceChanged(transition: Transition)

  /** What a poll reports; `incomplete` is the line number given with the notice of an incomplete final line. */
  datatype Poll = Poll(
    transition: Option<Transition>, records: nat, skipped: seq<nat>, written: bool, incomplete: Option<nat>,
    status: Status)

  datatype Outcome = Outcome(monitor: MonitorState, store: StoreState, poll: Poll)

  function NewCursor(path: string): Cursor
  {
    Cursor(path, 0, 0, 0, FNV_OFFSET_BASIS, [])
  }

  function Opened(cursor: Cursor, o: Options): MonitorState
  {
    var recent := cursor.recent[..Min(|cursor.recent|, o.maxEventIdentities)];
    MonitorState(cursor.(recent := recent), cursor.offset == 0 && cursor.sequence == 0, recent)
  }

  function Reset(m: MonitorState): MonitorState
  {
    MonitorState(NewCursor(m.cursor.sourceIdentity), m.initial, [])
  }

  /** Why a poll restarts at offset 0, if it does. */
  function TransitionOf(m: MonitorState, file: Bytes): Option<Transition>
  {
    if |file| < m.cursor.offset then Some(Truncated)
    else if Digest(file[..m.cursor.offset]) != m.cursor.digest then Some(Rotated)
    else None
  }

  function StatusOf(transition: Option<Transition>, skipped: seq<nat>, partial: bool, written: bool): Status
  {
    if transition.Some? then SourceChanged(transition.value)
    else if skipped != [] then DuplicateIdentity
    else if partial then PartialLine
    else if written then Updated
    else Idle
  }

  /** The report of a poll that stands behind `line` lines, with more bytes following if `partial`. */
  function ReportPoll(transition: Option<Transition>, records: nat, skipped: seq<nat>, written: bool, partial: bool,
                      line: nat): Poll
  {
    Poll(transition, records, skipped, written, if partial then Some(line + 1) else None,
         StatusOf(transition, skipped, partial, written))
  }

  /** The whole effect of one poll on the monitor and on the store. */
  function PollOnce(o: Options, decode: Decoder, m: MonitorState, s: StoreState, file: Bytes): Outcome
  {
    var transition := TransitionOf(m, file);
    var base := if transition.Some? then Reset(m) else m;
    var start := base.cursor.offset;
    var end := CompleteEnd(file, start, o.maxPollBytes);
    var parsed := Parse(file[start..end], base.cursor.line, o.maxLineBytes, decode);
    var f := Filter(parsed.records, base.recent, o.maxEventIdentities);
    var rows := Number(f.accepted, base.cursor.sequence);
    var replace := m.initial || transition.Some?;
    var written := replace || rows != [] || parsed.diagnostics != [];
    var store :=
      if replace then StoreState(rows, parsed.diagnostics)
      else StoreState(s.rows + rows, s.diagnostics + parsed.diagnostics);
    var cursor := base.cursor.(
      offset := end,
      line := base.cursor.line + CountNewlines(file[start..end]),
      sequence := base.cursor.sequence + |rows|,
      digest := Digest(file[..end]),
      recent := f.recent);
    Outcome(MonitorState(cursor, false, f.recent), store,
            ReportPoll(transition, |rows|, f.skipped, written, end < |file|, cursor.line))
  }

  class LocalMonitor {
    const options: Options
    const decode: Decoder
    var cursor: Cursor
    var initial: bool
    var recent: seq<string>

    function State(): MonitorState
      reads this
    {
      MonitorState(cursor, initial, recent)
    }

    constructor (state: MonitorState, options: Options, decode: Decoder)
      ensures State() == state && this.options == options && this.decode == decode
    {
      this.options, this.decode := options, decode;
      cursor, initial, recent := state.cursor, state.initial, state.recent;
    }

    /** A saved cursor is accepted only for the source it was saved for. */
    static method Rollout(path: string, saved: Option<Cursor>, options: Options, decode: Decoder)
    returns (r: Option<LocalMonitor>)
      ensures r.None? <==> saved.Some? && saved.value.sourceIdentity != path
      ensures r.Some? ==>
                && fresh(r.value) && r.value.options == options && r.value.decode == decode
                && r.value.State() == Opened(if saved.Some? then saved.value else NewCursor(path), options)
    {
      var start := if saved.Some? then saved.value else NewCursor(path);
      if start.sourceIdentity != path {
        return None;
      }
      var kept := start.recent[..Min(|start.recent|, options.maxEventIdentities)];
      var first := start.offset == 0 && start.sequence == 0;
      var monitor := new LocalMonitor(MonitorState(start.(recent := kept), first, kept), options, decode);
      return Some(monitor);
    }

    method ResetCursor()
      modifies this
      ensures State() == Reset(old(State()))
    {
      cursor := Cursor(cursor.sourceIdentity, 0, 0, 0, FNV_OFFSET_BASIS, []);
      recent := [];
    }

    method FilterDuplicates(records: seq<Record>) returns (accepted: seq<Record>, skipped: seq<nat>)
      modifies this`recent
      ensures var f := Filter(records, old(recent), options.maxEventIdentities);
              accepted == f.accepted && skipped == f.skipped && recent == f.recent
    {
      accepted, skipped := [], [];
      for i := 0 to |records|
        invariant var f := Filter(records[..i], old(recent), options.maxEventIdentities);
                  accepted == f.accepted && skipped == f.skipped && recent == f.recent
      {
        var record := records[i];
        assert records[..i + 1][..i] == records[..i];
        if record.identity.Some? {
          if record.identity.value in recent {
            skipped := skipped + [record.line];
            continue;
          }
          if options.maxEventIdentities > 0 {
            ghost var grown := recent + [record.identity.value];
            recent := recent + [record.identity.value];
            while |recent| > options.maxEventIdentities
              invariant |recent| >= Min(|grown|, options.maxEventIdentities)
              invariant |recent| <= |grown| && recent == grown[|grown| - |recent|..]
            {
              recent := recent[1..];
            }
          }
        }
        accepted := accepted + [record];
      }
      assert records[..|records|] == records;
    }

    /** A file shorter than the cursor, or with another prefix, restarts the monitor at offset 0. */
    method CheckSource(file: Bytes) returns (transition: Option<Transition>)
      modifies this
      ensures transition == TransitionOf(old(State()), file)
      ensures State() == if transition.Some? then Reset(old(State())) else old(State())
      ensures cursor.offset <= |file|
    {
      hide UpdateDigest, Digest;
      if |file| < cursor.offset {
        ResetCursor();
        return Some(Truncated);
      }
      var digest := PrefixDigest(file, cursor.offset);
      if digest != Some(cursor.digest) {
        ResetCursor();
        return Some(Rotated);
      }
      return None;
    }

    method PollRollout(file: Bytes, store: Store) returns (poll: Poll)
      modifies this, store
      ensures Outcome(State(), store.State(), poll)
           == PollOnce(options, decode, old(State()), old(store.State()), file)
    {
      hide Parse, CountNewlines, CompleteEnd, Filter, UpdateDigest, Digest, TransitionOf, ReportPoll, Number;
      var transition := CheckSource(file);
      var start, lineStart, sequenceStart := cursor.offset, cursor.line, cursor.sequence;
      var end := ScanCompleteEnd(file, start, options.maxPollBytes);
      var newlines := CountNewlinesBetween(file, start, end);
      var parsed := ParseResult([], []);
      if end > start {
        parsed := ParseWindow(file, start, end, lineStart, options.maxLineBytes, decode);
      } else {
        ParseNothing(lineStart, options.maxLineBytes, decode);
        assert file[start..end] == [];
      }
      assert parsed == Parse(file[start..end], lineStart, options.maxLineBytes, decode);
      var records, skipped := FilterDuplicates(parsed.records);
      var rows := Number(records, sequenceStart);
      var written := store.Write(rows, parsed.diagnostics, initial || transition.Some?);
      var digest := PrefixDigest(file, end);
      assert digest == Some(Digest(file[..end]));
      cursor := Cursor(cursor.sourceIdentity, end, lineStart + newlines, sequenceStart + |rows|, digest.value, recent);
      initial := false;
      poll := ReportPoll(transition, |rows|, skipped, written, end < |file|, cursor.line);
    }
  }
}
