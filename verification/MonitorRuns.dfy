/** What every poll of the rollout monitor keeps, and what whole runs of polls and restarts deliver. */
module MonitorRuns {
  import opened Wrappers
  import opened Bytes
  import opened Slices
  import opened JsonlReader
  import opened MonitorScan
  import opened Monitor

  // ---- The invariant ----

  /** The cursor describes the prefix of the file it stands behind. */
  ghost predicate CursorFits(c: Cursor, file: Bytes)
  {
    && c.offset <= |file|
    && WholeLines(file[..c.offset])
    && c.line == CountNewlines(file[..c.offset])
    && c.digest == Digest(file[..c.offset])
  }

  /** Cursor, identity window and store are what one parse of the prefix up to the offset would give. */
  ghost predicate Synced(o: Options, decode: Decoder, m: MonitorState, s: StoreState, file: Bytes)
  {
    && CursorFits(m.cursor, file)
    && m.cursor.recent == m.recent
    && var whole := Ingest(o, decode, file[..m.cursor.offset]);
       && m.recent == whole.recent
       && m.cursor.sequence == |whole.store.rows|
       && (m.initial ==> m.cursor.offset == 0)
       && (!m.initial ==> s == whole.store)
  }

  // ---- One step: a parsed window extends a parsed prefix ----

  lemma NumberConcat(a: seq<Record>, b: seq<Record>, start: nat)
    ensures Number(a + b, start) == Number(a, start) + Number(b, start + |a|)
  {
  }

  /** Parsing a window with the state left by the prefix extends the parse of the prefix. */
  lemma IngestConcat(o: Options, decode: Decoder, a: Bytes, b: Bytes)
    requires WholeLines(a)
    ensures var before, after := Ingest(o, decode, a), Ingest(o, decode, a + b);
            var parsed := Parse(b, CountNewlines(a), o.maxLineBytes, decode);
            var f := Filter(parsed.records, before.recent, o.maxEventIdentities);
            && after.recent == f.recent
            && after.store.rows == before.store.rows + Number(f.accepted, |before.store.rows|)
            && after.store.diagnostics == before.store.diagnostics + parsed.diagnostics
  {
    hide Parse, Filter, CountNewlines, WholeLines;
    ParseConcat(a, b, 0, o.maxLineBytes, decode);
    var first := Parse(a, 0, o.maxLineBytes, decode);
    var second := Parse(b, CountNewlines(a), o.maxLineBytes, decode);
    FilterConcat(first.records, second.records, [], o.maxEventIdentities);
    var f := Filter(first.records, [], o.maxEventIdentities);
    NumberConcat(f.accepted, Filter(second.records, f.recent, o.maxEventIdentities).accepted, 0);
  }

  lemma IngestNothing(o: Options, decode: Decoder)
    ensures Ingest(o, decode, []) == Ingested(StoreState([], []), [])
    ensures Digest([]) == FNV_OFFSET_BASIS && CountNewlines([]) == 0 && WholeLines([])
  {
    ParseNothing(0, o.maxLineBytes, decode);
  }

  /** The prefix up to the new offset is again whole lines, and the line count follows. */
  lemma PrefixGrows(file: Bytes, start: nat, maxPollBytes: nat)
    requires start <= |file| && WholeLines(file[..start])
    ensures var end := CompleteEnd(file, start, maxPollBytes);
            && file[..end] == file[..start] + file[start..end]
            && WholeLines(file[..end])
            && CountNewlines(file[..end]) == CountNewlines(file[..start]) + CountNewlines(file[start..end])
  {
    hide CompleteEnd, CountNewlines;
    var end := CompleteEnd(file, start, maxPollBytes);
    CompleteEndProgress(file, start, maxPollBytes);
    Prefixes(file, start, end);
    CountNewlinesConcat(file[..start], file[start..end]);
  }

  // ---- Polls ----

  /** The digest of the old prefix is found again only on the old prefix. */
  ghost predicate NoCollision(c: Cursor, before: Bytes, file: Bytes)
    requires c.offset <= |before|
  {
    c.offset <= |file| && Digest(file[..c.offset]) == Digest(before[..c.offset]) ==>
      file[..c.offset] == before[..c.offset]
  }

  /** A poll whose cursor (after a possible restart) fits the file leaves the store in step with the file. */
  lemma PollFromFittingCursor(o: Options, decode: Decoder, m: MonitorState, s: StoreState, file: Bytes)
    requires Synced(o, decode, m, s, file)
    ensures var out := PollOnce(o, decode, m, s, file);
            && out.poll.transition == None
            && Synced(o, decode, out.monitor, out.store, file)
            && !out.monitor.initial
            && out.monitor.cursor.offset == CompleteEnd(file, m.cursor.offset, o.maxPollBytes)
  {
    hide Ingest, Parse, Filter, CountNewlines, Digest, CompleteEnd, WholeLines;
    IngestNothing(o, decode);
    PrefixGrows(file, m.cursor.offset, o.maxPollBytes);
    var end := CompleteEnd(file, m.cursor.offset, o.maxPollBytes);
    IngestConcat(o, decode, file[..m.cursor.offset], file[m.cursor.offset..end]);
    if m.initial {
      assert file[..0] == [];
    }
  }

  /** A restarted poll behaves as the first poll of a new monitor. */
  lemma PollAfterReset(o: Options, decode: Decoder, m: MonitorState, s: StoreState, file: Bytes)
    requires TransitionOf(m, file).Some?
    ensures var out := PollOnce(o, decode, m, s, file);
            var anew := PollOnce(o, decode, Reset(m).(initial := true), s, file);
            && out.monitor == anew.monitor && out.store == anew.store
            && Synced(o, decode, Reset(m).(initial := true), s, file)
  {
    hide Ingest, Parse, Filter, CountNewlines, Digest, CompleteEnd, WholeLines;
    IngestNothing(o, decode);
    assert file[..0] == [];
  }

  /**
   * Safety of one poll over an arbitrary new file: whatever was appended, cut or rewritten,
   * the store holds the accepted records of the new file up to the new offset.
   */
  lemma PollKeepsSync(o: Options, decode: Decoder, m: MonitorState, s: StoreState, before: Bytes, file: Bytes)
    requires Synced(o, decode, m, s, before)
    requires NoCollision(m.cursor, before, file)
    ensures var out := PollOnce(o, decode, m, s, file);
            Synced(o, decode, out.monitor, out.store, file) && !out.monitor.initial
  {
    hide Ingest, Parse, Filter, CountNewlines, Digest, CompleteEnd, WholeLines, PollOnce;
    if TransitionOf(m, file).Some? {
      PollAfterReset(o, decode, m, s, file);
      PollFromFittingCursor(o, decode, Reset(m).(initial := true), s, file);
    } else {
      assert file[..m.cursor.offset] == before[..m.cursor.offset];
      PollFromFittingCursor(o, decode, m, s, file);
    }
  }

  // ---- Restarts ----

  /** Stopping and reopening from the saved cursor changes nothing the next poll depends on. */
  lemma RestartKeepsSync(o: Options, decode: Decoder, m: MonitorState, s: StoreState, file: Bytes)
    requires Synced(o, decode, m, s, file)
    ensures Synced(o, decode, Opened(m.cursor, o), s, file)
    ensures Opened(m.cursor, o).cursor == m.cursor && Opened(m.cursor, o).recent == m.recent
  {
    hide Parse, Filter, CountNewlines, Digest, WholeLines;
    var records := Parse(file[..m.cursor.offset], 0, o.maxLineBytes, decode).records;
    WindowHoldsLastIdentities(records, o.maxEventIdentities);
    assert m.cursor.recent[..|m.cursor.recent|] == m.cursor.recent;
    assert !m.initial && m.cursor.offset > 0 ==> !Opened(m.cursor, o).initial;
    if m.initial || m.cursor.offset == 0 {
      IngestNothing(o, decode);
      assert file[..0] == [];
    }
  }

  /**
   * Reopening with another identity limit keeps the front of the saved window, not its end:
   * the newest identities survive exactly when the window fits the limit (or nothing is kept at all).
   */
  lemma SmallerLimitKeepsNewestIff(cursor: Cursor, o: Options)
    requires NoRepeats(cursor.recent)
    ensures Opened(cursor, o).recent == LastN(cursor.recent, o.maxEventIdentities) <==>
            |cursor.recent| <= o.maxEventIdentities || o.maxEventIdentities == 0
  {
    var n := o.maxEventIdentities;
    if 0 < n < |cursor.recent| {
      assert cursor.recent[..n][0] != LastN(cursor.recent, n)[0];
    } else if |cursor.recent| <= n {
      assert cursor.recent[..|cursor.recent|] == cursor.recent;
    }
  }

  /** Two identities carried, room for one: the older one is kept. */
  lemma OlderIdentityIsKept(o: Options)
    requires o.maxEventIdentities == 1
    ensures var cursor := Cursor("log", 20, 2, 2, 0, ["older", "newer"]);
            Opened(cursor, o).recent == ["older"] && LastN(cursor.recent, o.maxEventIdentities) == ["newer"]
  {
    assert ["older", "newer"][..1] == ["older"] && ["older", "newer"][1..] == ["newer"];
  }

  // ---- Whole runs ----

  datatype Event = PollFile(file: Bytes) | Restart

  datatype World = World(monitor: MonitorState, store: StoreState, file: Bytes)

  function Next(o: Options, decode: Decoder, w: World, e: Event): World
  {
    match e
    case PollFile(file) =>
      var out := PollOnce(o, decode, w.monitor, w.store, file);
      World(out.monitor, out.store, file)
    case Restart => w.(monitor := Opened(w.monitor.cursor, o))
  }

  function Run(o: Options, decode: Decoder, w: World, events: seq<Event>): World
  {
    if events == [] then w
    else Next(o, decode, Run(o, decode, w, events[..|events| - 1]), events[|events| - 1])
  }

  /** Before the first poll: a new cursor, whatever an earlier ingestion left in the store, no file seen. */
  function Start(path: string, o: Options, s: StoreState): World
  {
    World(Opened(NewCursor(path), o), s, [])
  }

  /** No two of the observed files have different prefixes of one length with the same digest. */
  ghost predicate DigestsDistinguish(events: seq<Event>)
  {
    forall e, f, n: nat {:trigger f.file[..n], e.file[..n]} ::
      (e in events && f in events && e.PollFile? && f.PollFile? && n <= |e.file| && n <= |f.file|
       && Digest(e.file[..n]) == Digest(f.file[..n])) ==> e.file[..n] == f.file[..n]
  }

  ghost predicate WorldSynced(o: Options, decode: Decoder, w: World)
  {
    Synced(o, decode, w.monitor, w.store, w.file)
  }

  lemma StartSynced(path: string, o: Options, decode: Decoder, s: StoreState)
    ensures WorldSynced(o, decode, Start(path, o, s))
  {
    IngestNothing(o, decode);
  }

  /** The file of a world is the last one polled. */
  lemma {:induction false} FileOfRun(o: Options, decode: Decoder, w: World, events: seq<Event>)
    ensures var file := Run(o, decode, w, events).file;
            file == w.file || exists e :: e in events && e.PollFile? && e.file == file
  {
    if events != [] {
      FileOfRun(o, decode, w, events[..|events| - 1]);
      assert events[|events| - 1] in events;
    }
  }

  /**
   * Safety over every run: files may grow, shrink or be rewritten between polls, and the monitor may
   * be stopped and reopened at any point; the store always agrees with the file last seen.
   */
  lemma {:induction false} EveryRunStaysSynced(path: string, o: Options, decode: Decoder, s: StoreState,
                                               events: seq<Event>)
    requires DigestsDistinguish(events)
    ensures WorldSynced(o, decode, Run(o, decode, Start(path, o, s), events))
  {
    hide Synced, PollOnce, Digest, Opened;
    if events == [] {
      StartSynced(path, o, decode, s);
    } else {
      var init, last := events[..|events| - 1], events[|events| - 1];
      EveryRunStaysSynced(path, o, decode, s, init);
      var w := Run(o, decode, Start(path, o, s), init);
      if last.PollFile? {
        FileOfRun(o, decode, Start(path, o, s), init);
        CollisionFree(o, decode, w, events, last);
        PollKeepsSync(o, decode, w.monitor, w.store, w.file, last.file);
      } else {
        RestartKeepsSync(o, decode, w.monitor, w.store, w.file);
      }
    }
  }

  lemma CollisionFree(o: Options, decode: Decoder, w: World, events: seq<Event>, e: Event)
    requires DigestsDistinguish(events) && e in events && e.PollFile?
    requires WorldSynced(o, decode, w)
    requires w.file == [] || exists f :: f in events && f.PollFile? && f.file == w.file
    ensures w.monitor.cursor.offset <= |w.file| && NoCollision(w.monitor.cursor, w.file, e.file)
  {
    hide Digest, Ingest, CountNewlines, WholeLines;
    var n := w.monitor.cursor.offset;
    if w.file == [] {
      assert n == 0 && e.file[..0] == w.file[..0];
    } else {
      var f :| f in events && f.PollFile? && f.file == w.file;
      assert n <= |e.file| && Digest(e.file[..n]) == Digest(f.file[..n]) ==> e.file[..n] == f.file[..n];
    }
  }

  // ---- What the rows are ----

  /** Row k stands for one line of the prefix: numbered k + 1, decoded from that line, which is within the limit. */
  ghost predicate FromLine(o: Options, decode: Decoder, raw: seq<Bytes>, r: Record)
  {
    && 1 <= r.line <= |raw|
    && |raw[r.line - 1]| <= o.maxLineBytes
    && decode(raw[r.line - 1]) == Decoded(r.identity, r.body)
  }

  ghost predicate LinesIncrease(records: seq<Record>)
  {
    forall i, j :: 0 <= i < j < |records| ==> records[i].line < records[j].line
  }

  lemma {:induction false} RecordsComeFromLines(o: Options, decode: Decoder, raw: seq<Bytes>, lines: seq<ReadLine>)
    requires |lines| <= |raw|
    requires forall i :: 0 <= i < |lines| ==> lines[i] == Report(raw[i], o.maxLineBytes, i + 1)
    ensures var records := ParseLines(lines, decode).records;
            && LinesIncrease(records)
            && (forall k :: 0 <= k < |records| ==>
                  FromLine(o, decode, raw, records[k]) && records[k].line <= |lines|)
  {
    if lines != [] {
      hide ParseLines;
      var init, last := lines[..|lines| - 1], lines[|lines| - 1];
      RecordsComeFromLines(o, decode, raw, init);
      assert lines == init + [last];
      ParseLinesSnoc(init, last, decode);
    } else {
      assert ParseLines([], decode).records == [];
    }
  }

  /** No line within the limit that decodes to a record is left out. */
  lemma {:induction false} EveryRecordIsParsed(o: Options, decode: Decoder, lines: seq<ReadLine>, i: nat)
    requires i < |lines| && lines[i].Line? && decode(lines[i].bytes).Decoded?
    ensures var d := decode(lines[i].bytes);
            Record(lines[i].line, d.identity, d.body) in ParseLines(lines, decode).records
  {
    hide ParseLines;
    var init, last := lines[..|lines| - 1], lines[|lines| - 1];
    assert lines == init + [last];
    ParseLinesSnoc(init, last, decode);
    if i < |init| {
      EveryRecordIsParsed(o, decode, init, i);
    }
  }

  /** The filter keeps records in order and invents none. */
  lemma {:induction false} FilterKeepsOrder(records: seq<Record>, recent: seq<string>, limit: nat)
    requires LinesIncrease(records)
    ensures var accepted := Filter(records, recent, limit).accepted;
            LinesIncrease(accepted) && forall r :: r in accepted ==> r in records
  {
    if records != [] {
      hide Remember;
      var init, last := records[..|records| - 1], records[|records| - 1];
      FilterKeepsOrder(init, recent, limit);
      var accepted := Filter(init, recent, limit).accepted;
      assert forall r :: r in init ==> r.line < last.line;
      assert forall i :: 0 <= i < |accepted| ==> accepted[i] in init;
    }
  }

  /** The stored rows have contiguous sequence numbers, increasing lines, and the content of those lines. */
  lemma StoredRowsAreLines(o: Options, decode: Decoder, prefix: Bytes)
    ensures var rows := Ingest(o, decode, prefix).store.rows;
            && (forall k :: 0 <= k < |rows| ==>
                  rows[k].sequence == k + 1 && FromLine(o, decode, RawLines(prefix), rows[k].record))
            && (forall k, l :: 0 <= k < l < |rows| ==> rows[k].record.line < rows[l].record.line)
  {
    hide Filter, ParseLines, Lines, RawLines;
    LinesAreReports(prefix, o.maxLineBytes, 1);
    RecordsComeFromLines(o, decode, RawLines(prefix), Lines(prefix, o.maxLineBytes, 1));
    var records := Parse(prefix, 0, o.maxLineBytes, decode).records;
    FilterKeepsOrder(records, [], o.maxEventIdentities);
    var accepted := Filter(records, [], o.maxEventIdentities).accepted;
    assert forall k :: 0 <= k < |accepted| ==> accepted[k] in records;
    assert forall r :: r in records ==> FromLine(o, decode, RawLines(prefix), r);
  }

  // ---- Append-only sources ----

  /** Each polled file extends the one before it. */
  ghost predicate OnlyGrows(file: Bytes, events: seq<Event>)
  {
    forall i, j :: 0 <= i <= j < |events| && events[i].PollFile? && events[j].PollFile? ==>
      file <= events[i].file <= events[j].file
  }

  /**
   * For an append-only source nothing is assumed of the digest: no poll ever restarts, the offset
   * never goes back, and the store is one parse of the file up to the offset.
   */
  lemma {:induction false} AppendOnlyRun(o: Options, decode: Decoder, w: World, events: seq<Event>)
    requires WorldSynced(o, decode, w) && OnlyGrows(w.file, events)
    ensures var after := Run(o, decode, w, events);
            && WorldSynced(o, decode, after)
            && w.file <= after.file
            && w.monitor.cursor.offset <= after.monitor.cursor.offset
            && (after.file == w.file
                || exists i :: 0 <= i < |events| && events[i].PollFile? && events[i].file == after.file)
  {
    if events != [] {
      hide Ingest, CountNewlines, WholeLines, PollOnce, Digest;
      var n := |events| - 1;
      var init, last := events[..n], events[n];
      assert forall i :: 0 <= i < n ==> init[i] == events[i];
      AppendOnlyRun(o, decode, w, init);
      var before := Run(o, decode, w, init);
      if last.PollFile? {
        assert before.file <= last.file;
        AppendOnlyPoll(o, decode, before, last.file);
      } else {
        RestartKeepsSync(o, decode, before.monitor, before.store, before.file);
      }
    }
  }

  /** One poll of a grown file: no restart, and the new rows are appended to the old ones. */
  lemma AppendOnlyPoll(o: Options, decode: Decoder, w: World, file: Bytes)
    requires WorldSynced(o, decode, w) && w.file <= file
    ensures var out := PollOnce(o, decode, w.monitor, w.store, file);
            && out.poll.transition == None
            && Synced(o, decode, out.monitor, out.store, file)
            && w.monitor.cursor.offset <= out.monitor.cursor.offset
            && (!w.monitor.initial ==> w.store.rows <= out.store.rows && w.store.diagnostics <= out.store.diagnostics)
  {
    hide Ingest, CountNewlines, WholeLines, Digest, Parse, Filter, CompleteEnd;
    assert file[..w.monitor.cursor.offset] == w.file[..w.monitor.cursor.offset];
    PollFromFittingCursor(o, decode, w.monitor, w.store, file);
  }

  // ---- Progress ----

  function Repeat(file: Bytes, polls: nat): seq<Event>
  {
    seq(polls, i => PollFile(file))
  }

  /** Each poll of an unchanged file consumes at least one line until none is left. */
  lemma {:induction false} PollsReachTheEnd(o: Options, decode: Decoder, w: World, polls: nat)
    requires WorldSynced(o, decode, w)
    ensures var after := Run(o, decode, w, Repeat(w.file, polls));
            && WorldSynced(o, decode, after) && after.file == w.file
            && w.monitor.cursor.offset <= after.monitor.cursor.offset <= PastLastNewline(w.file)
            && (after.monitor.cursor.offset < PastLastNewline(w.file) ==>
                  after.monitor.cursor.line >= w.monitor.cursor.line + polls)
  {
    hide Ingest, Digest, PollOnce, CountNewlines, PastLastNewline;
    if polls == 0 {
      OffsetBound(w.monitor.cursor, w.file);
    } else {
      assert Repeat(w.file, polls)[..polls - 1] == Repeat(w.file, polls - 1);
      PollsReachTheEnd(o, decode, w, polls - 1);
      var before := Run(o, decode, w, Repeat(w.file, polls - 1));
      PollFromFittingCursor(o, decode, before.monitor, before.store, w.file);
      PollAdvances(w.file, before.monitor.cursor.offset, o.maxPollBytes);
    }
  }

  lemma OffsetBound(c: Cursor, file: Bytes)
    requires CursorFits(c, file)
    ensures c.offset <= PastLastNewline(file)
  {
    PastLastNewlineIs(file);
    if c.offset > 0 {
      assert file[c.offset - 1] == file[..c.offset][c.offset - 1];
    }
  }

  lemma PollAdvances(file: Bytes, start: nat, maxPollBytes: nat)
    requires start <= PastLastNewline(file) && WholeLines(file[..start])
    ensures var end := CompleteEnd(file, start, maxPollBytes);
            && start <= end <= PastLastNewline(file)
            && (start < PastLastNewline(file) ==> CountNewlines(file[..end]) > CountNewlines(file[..start]))
  {
    hide CompleteEnd, CountNewlines, PastLastNewline;
    CompleteEndBound(file, start, maxPollBytes);
    PrefixGrows(file, start, maxPollBytes);
    CompleteEndProgress(file, start, maxPollBytes);
    var end := CompleteEnd(file, start, maxPollBytes);
    if start < end {
      EndsInNewline(file[start..end]);
    }
  }

  lemma EndsInNewline(s: Bytes)
    requires s != [] && s[|s| - 1] == NEWLINE
    ensures CountNewlines(s) > 0
  {
    var init := s[..|s| - 1];
    assert s == init + [NEWLINE] && CountNewlines([NEWLINE]) == 1;
    CountNewlinesConcat(init, [NEWLINE]);
  }

  /**
   * Enough polls of a file that has stopped changing leave exactly the accepted records of all its
   * complete lines in the store, whatever the poll budget; and when no identity recurs inside the
   * window these are the records of a plain batch parse of those lines.
   */
  lemma EnoughPollsEqualBatch(o: Options, decode: Decoder, w: World, polls: nat)
    requires WorldSynced(o, decode, w) && polls > CountNewlines(w.file)
    ensures var after := Run(o, decode, w, Repeat(w.file, polls));
            var complete := w.file[..PastLastNewline(w.file)];
            var batch := Parse(complete, 0, o.maxLineBytes, decode);
            && after.monitor.cursor.offset == PastLastNewline(w.file)
            && after.store == Ingest(o, decode, complete).store
            && (NoRecentRepeat(batch.records, o.maxEventIdentities) <==> after.store.rows == Number(batch.records, 0))
            && after.store.diagnostics == batch.diagnostics
  {
    hide Parse, Digest, PollOnce, CountNewlines, PastLastNewline, Filter, NoRecentRepeat, Run;
    PollsReachTheEnd(o, decode, w, polls);
    var after := Run(o, decode, w, Repeat(w.file, polls));
    LineBound(w.file, after.monitor.cursor.offset);
    StaysPolled(o, decode, w, polls);
    var complete := w.file[..PastLastNewline(w.file)];
    var batch := Parse(complete, 0, o.maxLineBytes, decode);
    AcceptsEverythingIff(batch.records, o.maxEventIdentities);
    NumberInjective(Filter(batch.records, [], o.maxEventIdentities).accepted, batch.records, 0);
  }

  lemma NumberInjective(a: seq<Record>, b: seq<Record>, start: nat)
    ensures Number(a, start) == Number(b, start) <==> a == b
  {
    if Number(a, start) == Number(b, start) {
      assert |a| == |Number(a, start)| == |b|;
      forall i | 0 <= i < |a| ensures a[i] == b[i] {
        assert Number(a, start)[i].record == a[i] && Number(b, start)[i].record == b[i];
      }
    }
  }

  lemma LineBound(file: Bytes, n: nat)
    requires n <= |file|
    ensures CountNewlines(file[..n]) <= CountNewlines(file)
  {
    hide CountNewlines;
    assert file == file[..n] + file[n..];
    CountNewlinesConcat(file[..n], file[n..]);
  }

  lemma StaysPolled(o: Options, decode: Decoder, w: World, polls: nat)
    requires polls > 0
    ensures !Run(o, decode, w, Repeat(w.file, polls)).monitor.initial
  {
    hide Parse, Digest, CountNewlines, CompleteEnd, Filter;
    var events := Repeat(w.file, polls);
    assert events[|events| - 1] == PollFile(w.file);
  }

  // ---- What a poll reports ----

  lemma FirstIsCounted(s: Bytes)
    requires FirstNewline(s) < |s|
    ensures CountNewlines(s) == 1 + CountNewlines(s[FirstNewline(s) + 1..])
  {
    hide FirstNewline, CountNewlines;
    var n := FirstNewline(s);
    FirstNewlineIs(s);
    assert s == s[..n] + ([s[n]] + s[n + 1..]);
    CountNewlinesConcat(s[..n], [s[n]] + s[n + 1..]);
    CountNewlinesConcat([s[n]], s[n + 1..]);
    NoNewlines(s[..n]);
    OneNewline();
  }

  lemma OneNewline()
    ensures CountNewlines([NEWLINE]) == 1
  {
    assert [NEWLINE][1..] == [];
  }

  /** Where a poll ends, by the last newline of its window and the first one after it. */
  lemma EndIs(file: Bytes, start: nat, maxPollBytes: nat)
    requires start <= |file|
    ensures var pollEnd := Min(|file|, start + maxPollBytes);
            var window, tail := file[start..pollEnd], file[pollEnd..];
            CompleteEnd(file, start, maxPollBytes) ==
            if PastLastNewline(window) > 0 then start + PastLastNewline(window)
            else if FirstNewline(tail) < |tail| then pollEnd + FirstNewline(tail) + 1
            else start
  {
    hide FirstNewline, PastLastNewline;
  }

  lemma NothingLeftAfter(file: Bytes, start: nat, pollEnd: nat, end: nat)
    requires start <= end <= pollEnd <= |file|
    ensures NEWLINE !in file[end..] <==> NEWLINE !in file[end..pollEnd] && NEWLINE !in file[pollEnd..]
  {
    assert file[end..] == file[end..pollEnd] + file[pollEnd..];
  }

  lemma NothingLeftAfterFirst(file: Bytes, pollEnd: nat)
    requires pollEnd <= |file| && FirstNewline(file[pollEnd..]) < |file| - pollEnd
    ensures NEWLINE !in file[pollEnd + FirstNewline(file[pollEnd..]) + 1..] <==> CountNewlines(file[pollEnd..]) == 1
    ensures NEWLINE in file[pollEnd..]
  {
    hide FirstNewline, CountNewlines;
    var tail := file[pollEnd..];
    FirstNewlineIs(tail);
    FirstIsCounted(tail);
    assert file[pollEnd + FirstNewline(tail) + 1..] == tail[FirstNewline(tail) + 1..];
    NoNewlines(tail[FirstNewline(tail) + 1..]);
  }

  /** A poll leaves no complete line exactly when none lies beyond its budget, or just the one it exceeds it for. */
  lemma NothingLeftIff(file: Bytes, start: nat, maxPollBytes: nat)
    requires start <= |file|
    ensures var pollEnd := Min(|file|, start + maxPollBytes);
            NEWLINE !in file[CompleteEnd(file, start, maxPollBytes)..] <==>
            || NEWLINE !in file[pollEnd..]
            || (NEWLINE !in file[start..pollEnd] && CountNewlines(file[pollEnd..]) == 1)
  {
    hide FirstNewline, CountNewlines, PastLastNewline, CompleteEnd;
    var pollEnd, end := Min(|file|, start + maxPollBytes), CompleteEnd(file, start, maxPollBytes);
    var window, tail := file[start..pollEnd], file[pollEnd..];
    EndIs(file, start, maxPollBytes);
    PastLastNewlineIs(window);
    FirstNewlineIs(tail);
    if PastLastNewline(window) > 0 {
      NothingLeftAfter(file, start, pollEnd, end);
      assert file[end..pollEnd] == window[end - start..];
    } else if FirstNewline(tail) < |tail| {
      NothingLeftAfterFirst(file, pollEnd);
    } else {
      NothingLeftAfter(file, start, pollEnd, start);
    }
  }

  /**
   * The line reported as incomplete: it is the one after the lines taken in, one is reported exactly while bytes are
   * left, and it does lack its newline if and only if the budget did not stop the poll before a complete line.
   */
  lemma HeldLineIsIncompleteIff(o: Options, decode: Decoder, m: MonitorState, s: StoreState, file: Bytes)
    requires Synced(o, decode, m, s, file)
    ensures var out := PollOnce(o, decode, m, s, file);
            var end, pollEnd := out.monitor.cursor.offset, Min(|file|, m.cursor.offset + o.maxPollBytes);
            && out.poll.incomplete == (if end < |file| then Some(CountNewlines(file[..end]) + 1) else None)
            && (NEWLINE !in file[end..] <==>
                || NEWLINE !in file[pollEnd..]
                || (NEWLINE !in file[m.cursor.offset..pollEnd] && CountNewlines(file[pollEnd..]) == 1))
  {
    hide Ingest, Parse, Filter, CountNewlines, Digest, CompleteEnd, WholeLines, StatusOf;
    PollFromFittingCursor(o, decode, m, s, file);
    NothingLeftIff(file, m.cursor.offset, o.maxPollBytes);
  }

  /** Two complete lines and a budget of one byte: the first poll reports the second line as incomplete. */
  lemma CompleteLineIsCalledIncomplete(path: string, o: Options, decode: Decoder, s: StoreState)
    requires o.maxPollBytes == 1
    ensures var file: Bytes := [NEWLINE, NEWLINE];
            var out := PollOnce(o, decode, Start(path, o, s).monitor, s, file);
            out.monitor.cursor.offset == 1 && out.poll.incomplete == Some(2)
  {
    hide Ingest, Parse, Filter, Digest, CountNewlines;
    var file: Bytes := [NEWLINE, NEWLINE];
    var m := Start(path, o, s).monitor;
    IngestNothing(o, decode);
    assert file[..0] == [];
    HeldLineIsIncompleteIff(o, decode, m, s, file);
    assert file[0..1] == [NEWLINE] == file[..1];
    PastLastNewlineIs([NEWLINE]);
    OneNewline();
  }

  lemma {:induction false} NothingFiltered(records: seq<Record>, recent: seq<string>, max: nat)
    ensures var f := Filter(records, recent, max);
            f.accepted == [] && f.skipped == [] <==> records == []
    ensures records == [] ==> Filter(records, recent, max).recent == recent
  {
    if records != [] {
      NothingFiltered(records[..|records| - 1], recent, max);
    }
  }

  /** An idle poll has read everything and changes nothing, and so does any further poll of a file read to its end. */
  lemma IdleMeansCaughtUp(o: Options, decode: Decoder, m: MonitorState, s: StoreState, file: Bytes)
    requires Synced(o, decode, m, s, file)
    ensures var out := PollOnce(o, decode, m, s, file);
            && (out.poll.status == Idle ==>
                  !m.initial && out.store == s && out.monitor.cursor.offset == |file| && out.monitor.recent == m.recent)
            && (!m.initial && m.cursor.offset == |file| ==>
                  out.poll.status == Idle && out.store == s && out.monitor == m)
  {
    hide Ingest, Digest, CompleteEnd, Parse, Filter, WholeLines, CountNewlines;
    PollFromFittingCursor(o, decode, m, s, file);
    var start, end := m.cursor.offset, CompleteEnd(file, m.cursor.offset, o.maxPollBytes);
    PrefixGrows(file, start, o.maxPollBytes);
    var parsed := Parse(file[start..end], m.cursor.line, o.maxLineBytes, decode);
    NothingFiltered(parsed.records, m.recent, o.maxEventIdentities);
    if start == |file| {
      assert file[start..end] == [];
      ParseNothing(m.cursor.line, o.maxLineBytes, decode);
      IngestNothing(o, decode);
    }
  }

  // ---- A poll whose write to the store fails ----

  function FilteredWindow(o: Options, decode: Decoder, m: MonitorState, file: Bytes): Filtered
  {
    var base := if TransitionOf(m, file).Some? then Reset(m) else m;
    var end := CompleteEnd(file, base.cursor.offset, o.maxPollBytes);
    Filter(Parse(file[base.cursor.offset..end], base.cursor.line, o.maxLineBytes, decode).records, base.recent,
           o.maxEventIdentities)
  }

  /** The monitor after such a poll: a restart and the identities seen stay, the cursor does not move on. */
  function AfterFailedWrite(o: Options, decode: Decoder, m: MonitorState, file: Bytes): MonitorState
  {
    var base := if TransitionOf(m, file).Some? then Reset(m) else m;
    base.(recent := FilteredWindow(o, decode, m, file).recent)
  }

  /** The first identity accepted was not among those remembered before. */
  lemma {:induction false} FirstAcceptedIsNew(records: seq<Record>, recent: seq<string>, limit: nat)
    ensures var f := Filter(records, recent, limit);
            if Identities(f.accepted) == [] then f.recent == recent else Identities(f.accepted)[0] !in recent
  {
    if records == [] {
      assert Identities([]) == [];
    } else {
      var n := |records| - 1;
      FirstAcceptedIsNew(records[..n], recent, limit);
      IdentitiesSnoc(Filter(records[..n], recent, limit).accepted, records[n]);
      hide Identities, Remember;
    }
  }

  /** What is accepted is remembered, as far as there is room for it. */
  lemma {:induction false} AcceptedAreRemembered(records: seq<Record>, recent: seq<string>, limit: nat)
    requires |recent| <= limit
    ensures var f := Filter(records, recent, limit); f.recent == LastN(recent + Identities(f.accepted), limit)
  {
    if records == [] {
      assert Identities([]) == [] && recent + [] == recent;
    } else {
      var n := |records| - 1;
      AcceptedAreRemembered(records[..n], recent, limit);
      var f := Filter(records[..n], recent, limit);
      IdentitiesSnoc(f.accepted, records[n]);
      hide Identities;
      if records[n].identity.Some? && records[n].identity.value !in f.recent {
        Assoc(recent, Identities(f.accepted), [records[n].identity.value]);
        LastNTwice(recent + Identities(f.accepted), records[n].identity.value, limit);
      }
    }
  }

  lemma LastNTwice(s: seq<string>, x: string, n: nat)
    ensures n > 0 ==> LastN(LastN(s, n) + [x], n) == LastN(s + [x], n)
    ensures n == 0 ==> LastN(s, n) == LastN(s + [x], n)
  {
  }

  /**
   * When the window has room for the identities of a poll, repeating the poll after its write failed stores what it
   * should have stored if and only if it accepted no record with an identity: those are skipped the second time.
   */
  lemma RetryStoresTheSameIff(o: Options, decode: Decoder, m: MonitorState, s: StoreState, file: Bytes)
    requires TransitionOf(m, file).None? && |m.recent| <= o.maxEventIdentities
    requires |Identities(FilteredWindow(o, decode, m, file).accepted)| <= o.maxEventIdentities
    ensures PollOnce(o, decode, AfterFailedWrite(o, decode, m, file), s, file).store ==
            PollOnce(o, decode, m, s, file).store <==>
            Identities(FilteredWindow(o, decode, m, file).accepted) == []
  {
    hide Filter, Parse, CompleteEnd, Digest, CountNewlines, Identities, LastN;
    var start := m.cursor.offset;
    var end, f := CompleteEnd(file, start, o.maxPollBytes), FilteredWindow(o, decode, m, file);
    var parsed := Parse(file[start..end], m.cursor.line, o.maxLineBytes, decode);
    var again := Filter(parsed.records, f.recent, o.maxEventIdentities);
    FirstAcceptedIsNew(parsed.records, m.recent, o.maxEventIdentities);
    FirstAcceptedIsNew(parsed.records, f.recent, o.maxEventIdentities);
    AcceptedAreRemembered(parsed.records, m.recent, o.maxEventIdentities);
    if Identities(f.accepted) != [] {
      EndIsKept(m.recent, Identities(f.accepted), o.maxEventIdentities);
    }
    assert again.accepted == f.accepted <==> Identities(f.accepted) == [];
    NumberInjective(again.accepted, f.accepted, m.cursor.sequence);
    AppendedDiffers(s.rows, Number(again.accepted, m.cursor.sequence), Number(f.accepted, m.cursor.sequence));
  }

  lemma EndIsKept(a: seq<string>, b: seq<string>, n: nat)
    requires |b| <= n
    ensures forall x :: x in b ==> x in LastN(a + b, n)
  {
    forall x | x in b ensures x in LastN(a + b, n) {
      var i :| 0 <= i < |b| && b[i] == x;
      var kept := LastN(a + b, n);
      assert kept[|kept| - |b| + i] == x;
    }
  }

  lemma AppendedDiffers(s: seq<Row>, a: seq<Row>, b: seq<Row>)
    ensures s + a == s + b <==> a == b
  {
    assert (s + a)[|s|..] == a && (s + b)[|s|..] == b;
  }

  /** When the poll had restarted on a changed source, repeating it leaves the rows of the old source in front. */
  lemma RestartIsForgotten(o: Options, decode: Decoder, m: MonitorState, s: StoreState, file: Bytes)
    requires TransitionOf(m, file).Some? && !m.initial
    ensures var retry := PollOnce(o, decode, AfterFailedWrite(o, decode, m, file), s, file);
            retry.poll.transition == None && s.rows <= retry.store.rows && s.diagnostics <= retry.store.diagnostics
  {
    hide Filter, Parse, CompleteEnd, CountNewlines;
    IngestNothing(o, decode);
    assert file[..0] == [];
  }
}
