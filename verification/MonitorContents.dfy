/** What a poll of src/monitor.rs stores and reports, line by line, in terms of the file and the decoding alone. */
module MonitorContents {
  import opened Wrappers
  import opened Bytes
  import opened Slices
  import opened JsonlReader
  import opened MonitorScan
  import opened Monitor
  import opened Subsequences

  // ---- Diagnostics ----

  /** A line too long, or one within the limit that is no JSON. */
  predicate IsBad(raw: Bytes, limit: nat, decode: Decoder)
  {
    |raw| > limit || decode(raw) == Malformed
  }

  /** The entry for line i, counted from 0. */
  function Due(raw: Bytes, i: nat, limit: nat): Diagnostic
  {
    if |raw| > limit then OversizedLine(i + 1, |raw|) else MalformedJson(i + 1)
  }

  lemma OneLine(raw: Bytes, n: nat, limit: nat, decode: Decoder)
    ensures ParseLine(Report(raw, limit, n + 1), decode).diagnostics ==
            if IsBad(raw, limit, decode) then [Due(raw, n, limit)] else []
  {
  }

  lemma {:induction false} DiagnosticsOfLines(raw: seq<Bytes>, lines: seq<ReadLine>, limit: nat, decode: Decoder,
                                              bad: nat -> bool, due: (nat, Diagnostic) -> bool)
    returns (at: seq<nat>)
    requires |lines| <= |raw| && forall i :: 0 <= i < |lines| ==> lines[i] == Report(raw[i], limit, i + 1)
    requires forall i: nat :: i < |raw| ==> bad(i) == IsBad(raw[i], limit, decode)
    requires forall i: nat, d :: i < |raw| ==> due(i, d) == (d == Due(raw[i], i, limit))
    ensures AreAll(at, |lines|, bad) && AreAt(ParseLines(lines, decode).diagnostics, at, due)
  {
    at := [];
    if lines == [] {
      assert ParseLines([], decode).diagnostics == [];
    } else {
      hide ParseLines, ParseLine, IsBad, Due, AreAll, AreAt, Report;
      var n := |lines| - 1;
      at := DiagnosticsOfLines(raw, lines[..n], limit, decode, bad, due);
      Snoc(lines);
      ParseLinesSnoc(lines[..n], lines[n], decode);
      OneLine(raw[n], n, limit, decode);
      at := PartNext(ParseLines(lines[..n], decode).diagnostics, ParseLine(lines[n], decode).diagnostics, at, n, bad,
                     due);
    }
  }

  /**
   * The diagnostics stored for a prefix, in the order of its lines: one for each line over the limit, with its number
   * and length, one for each line within the limit that is no JSON, with its number, and no other.
   */
  lemma DiagnosticsAreLines(o: Options, decode: Decoder, prefix: Bytes) returns (at: seq<nat>)
    ensures var raw, found := RawLines(prefix), Ingest(o, decode, prefix).store.diagnostics;
            && Ascending(at, |raw|) && |at| == |found|
            && (forall i :: 0 <= i < |raw| ==>
                  (i in at <==> |raw[i]| > o.maxLineBytes || decode(raw[i]) == Malformed))
            && forall k :: 0 <= k < |at| ==>
                 found[k] == if |raw[at[k]]| > o.maxLineBytes then OversizedLine(at[k] + 1, |raw[at[k]]|)
                             else MalformedJson(at[k] + 1)
  {
    hide ParseLines, Lines, RawLines, Filter;
    LinesAreReports(prefix, o.maxLineBytes, 1);
    var raw, limit := RawLines(prefix), o.maxLineBytes;
    at := DiagnosticsOfLines(raw, Lines(prefix, limit, 1), limit, decode,
                             (i: nat) => i < |raw| && IsBad(raw[i], limit, decode),
                             (i: nat, d) => i < |raw| && d == Due(raw[i], i, limit));
  }

  // ---- Records ----

  predicate IsRecord(raw: Bytes, limit: nat, decode: Decoder)
  {
    |raw| <= limit && decode(raw).Decoded?
  }

  predicate Decodes(record: Record, raw: Bytes, i: nat, decode: Decoder)
  {
    record.line == i + 1 && decode(raw) == Decoded(record.identity, record.body)
  }

  lemma OneRecord(raw: Bytes, n: nat, limit: nat, decode: Decoder)
    ensures var more := ParseLine(Report(raw, limit, n + 1), decode).records;
            if IsRecord(raw, limit, decode) then more == [more[0]] && Decodes(more[0], raw, n, decode) else more == []
  {
  }

  lemma {:induction false} RecordsOfLines(raw: seq<Bytes>, lines: seq<ReadLine>, limit: nat, decode: Decoder,
                                          good: nat -> bool, fits: (nat, Record) -> bool)
    returns (at: seq<nat>)
    requires |lines| <= |raw| && forall i :: 0 <= i < |lines| ==> lines[i] == Report(raw[i], limit, i + 1)
    requires forall i: nat :: i < |raw| ==> good(i) == IsRecord(raw[i], limit, decode)
    requires forall i: nat, r :: i < |raw| ==> fits(i, r) == Decodes(r, raw[i], i, decode)
    ensures AreAll(at, |lines|, good) && AreAt(ParseLines(lines, decode).records, at, fits)
  {
    at := [];
    if lines == [] {
      assert ParseLines([], decode).records == [];
    } else {
      hide ParseLines, ParseLine, IsRecord, Decodes, AreAll, AreAt, Report;
      var n := |lines| - 1;
      at := RecordsOfLines(raw, lines[..n], limit, decode, good, fits);
      Snoc(lines);
      ParseLinesSnoc(lines[..n], lines[n], decode);
      OneRecord(raw[n], n, limit, decode);
      at := PartNext(ParseLines(lines[..n], decode).records, ParseLine(lines[n], decode).records, at, n, good, fits);
    }
  }

  /** The records read from a prefix, in the order of its lines: those within the limit that decode to one. */
  lemma RecordsAreLines(o: Options, decode: Decoder, prefix: Bytes) returns (at: seq<nat>)
    ensures var raw, found := RawLines(prefix), Parse(prefix, 0, o.maxLineBytes, decode).records;
            && Ascending(at, |raw|) && |at| == |found|
            && (forall i :: 0 <= i < |raw| ==> (i in at <==> |raw[i]| <= o.maxLineBytes && decode(raw[i]).Decoded?))
            && forall k :: 0 <= k < |at| ==>
                 found[k].line == at[k] + 1 && decode(raw[at[k]]) == Decoded(found[k].identity, found[k].body)
  {
    hide ParseLines, Lines, RawLines;
    LinesAreReports(prefix, o.maxLineBytes, 1);
    var raw, limit := RawLines(prefix), o.maxLineBytes;
    at := RecordsOfLines(raw, Lines(prefix, limit, 1), limit, decode,
                         (i: nat) => i < |raw| && IsRecord(raw[i], limit, decode),
                         (i: nat, r) => i < |raw| && Decodes(r, raw[i], i, decode));
  }

  /** The identities of the records at these positions, in order. */
  function IdentitiesAt(records: seq<Record>, at: seq<nat>): seq<string>
    requires forall k :: 0 <= k < |at| ==> at[k] < |records|
  {
    if at == [] then []
    else
      var last := records[at[|at| - 1]].identity;
      IdentitiesAt(records, at[..|at| - 1]) + if last.Some? then [last.value] else []
  }

  /** How many of the ascending positions lie before i. */
  function CountBefore(at: seq<nat>, i: nat): nat
  {
    if at == [] then 0
    else if at[|at| - 1] < i then |at|
    else CountBefore(at[..|at| - 1], i)
  }

  lemma {:induction false} CountBeforeAll(at: seq<nat>, n: nat)
    requires Ascending(at, n)
    ensures CountBefore(at, n) == |at| && CountBefore(at + [n], n) == |at|
  {
    assert (at + [n])[..|at|] == at;
  }

  lemma CountBeforeStays(at: seq<nat>, n: nat, i: nat)
    requires Ascending(at, n) && i < n
    ensures CountBefore(at + [n], i) == CountBefore(at, i) <= |at|
  {
    assert (at + [n])[..|at|] == at;
    CountIsSmall(at, i);
  }

  lemma {:induction false} CountIsSmall(at: seq<nat>, i: nat)
    ensures CountBefore(at, i) <= |at|
  {
    if at != [] && at[|at| - 1] >= i {
      CountIsSmall(at[..|at| - 1], i);
    }
  }

  lemma {:induction false} IdentitiesStay(records: seq<Record>, more: seq<Record>, at: seq<nat>)
    requires records <= more && forall k :: 0 <= k < |at| ==> at[k] < |records|
    ensures IdentitiesAt(records, at) == IdentitiesAt(more, at)
  {
    if at != [] {
      IdentitiesStay(records, more, at[..|at| - 1]);
    }
  }

  /** The record has no identity, or none of the last `limit` identities accepted before it is the same. */
  ghost predicate IsNew(records: seq<Record>, at: seq<nat>, i: nat, limit: nat)
    requires i < |records| && forall k :: 0 <= k < |at| ==> at[k] < |records|
  {
    CountIsSmall(at, i);
    records[i].identity.Some? ==>
      records[i].identity.value !in LastN(IdentitiesAt(records, at[..CountBefore(at, i)]), limit)
  }

  lemma NewStays(init: seq<Record>, records: seq<Record>, at: seq<nat>, more: seq<nat>, i: nat, limit: nat)
    requires Ascending(at, |init|) && init <= records && |records| == |init| + 1 && i < |init|
    requires more == at || more == at + [|init|]
    ensures IsNew(records, more, i, limit) == IsNew(init, at, i, limit)
  {
    hide LastN;
    CountBeforeStays(at, |init|, i);
    var n := CountBefore(at, i);
    assert more[..n] == at[..n];
    IdentitiesStay(init, records, at[..n]);
  }

  lemma NewLast(init: seq<Record>, records: seq<Record>, at: seq<nat>, more: seq<nat>, limit: nat)
    requires Ascending(at, |init|) && init <= records && |records| == |init| + 1
    requires more == at || more == at + [|init|]
    ensures IsNew(records, more, |init|, limit) <==>
            (records[|init|].identity.Some? ==>
               records[|init|].identity.value !in LastN(IdentitiesAt(init, at), limit))
  {
    hide LastN;
    CountBeforeAll(at, |init|);
    assert more[..|at|] == at;
    IdentitiesStay(init, records, at);
  }

  /** Of the positions up to n, those that are not among `at`, in order. */
  function Others(at: seq<nat>, n: nat): seq<nat>
  {
    if n == 0 then [] else Others(at, n - 1) + if n - 1 in at then [] else [n - 1]
  }

  lemma {:induction false} OthersStay(at: seq<nat>, last: nat, n: nat)
    requires n <= last
    ensures Others(at + [last], n) == Others(at, n)
    ensures forall k :: 0 <= k < |Others(at, n)| ==> Others(at, n)[k] < n
  {
    if n > 0 {
      OthersStay(at, last, n - 1);
    }
  }

  ghost predicate SkippedAre(skipped: seq<nat>, records: seq<Record>, others: seq<nat>)
  {
    && |skipped| == |others|
    && forall k :: 0 <= k < |others| ==> others[k] < |records| && skipped[k] == records[others[k]].line
  }

  ghost predicate AllNew(at: seq<nat>, records: seq<Record>, limit: nat)
  {
    Ascending(at, |records|) && forall i :: 0 <= i < |records| ==> (i in at <==> IsNew(records, at, i, limit))
  }

  lemma AllNewNext(at: seq<nat>, records: seq<Record>, limit: nat) returns (next: seq<nat>)
    requires records != [] && AllNew(at, records[..|records| - 1], limit)
    ensures var n := |records| - 1;
            var isNew := records[n].identity.Some? ==>
              records[n].identity.value !in LastN(IdentitiesAt(records[..n], at), limit);
            next == (if isNew then at + [n] else at) && AllNew(next, records, limit)
  {
    hide LastN, IsNew, IdentitiesAt;
    var n := |records| - 1;
    var init := records[..n];
    AscendingSnoc(at, n);
    InSnoc(at, n);
    NewLast(init, records, at, at, limit);
    NewLast(init, records, at, at + [n], limit);
    next := if IsNew(records, at, n, limit) then at + [n] else at;
    forall i | 0 <= i < n ensures i in next <==> IsNew(records, next, i, limit) {
      NewStays(init, records, at, next, i, limit);
    }
    hide Ascending;
  }

  ghost predicate AcceptedAt(f: Filtered, at: seq<nat>, records: seq<Record>, limit: nat)
  {
    && AllNew(at, records, limit) && |at| == |f.accepted|
    && (forall k :: 0 <= k < |at| ==> f.accepted[k] == records[at[k]])
    && SkippedAre(f.skipped, records, Others(at, |records|))
  }

  lemma AcceptedNext(f: Filtered, at: seq<nat>, records: seq<Record>, limit: nat) returns (next: seq<nat>)
    requires records != [] && AcceptedAt(f, at, records[..|records| - 1], limit)
    requires IdentitiesAt(records[..|records| - 1], at) == Identities(f.accepted)
    requires f.recent == LastN(Identities(f.accepted), limit)
    ensures AcceptedAt(FilterStep(f, records[|records| - 1], limit), next, records, limit)
    ensures IdentitiesAt(records, next) == Identities(FilterStep(f, records[|records| - 1], limit).accepted)
  {
    hide LastN, Remember, IsNew, Identities, IdentitiesAt, Others, CountBefore, Ascending;
    var n := |records| - 1;
    var init, last := records[..n], records[n];
    SkippedNext(f.skipped, init, last, at);
    assert init + [last] == records;
    IdentitiesStay(init, records, at);
    IdentitiesNext(records, at, n);
    IdentitiesSnoc(f.accepted, last);
    next := AllNewNext(at, records, limit);
    hide AllNew, SkippedAre;
  }

  lemma SkippedNext(skipped: seq<nat>, init: seq<Record>, last: Record, at: seq<nat>)
    requires Ascending(at, |init|) && SkippedAre(skipped, init, Others(at, |init|))
    ensures SkippedAre(skipped, init + [last], Others(at + [|init|], |init| + 1))
    ensures SkippedAre(skipped + [last.line], init + [last], Others(at, |init| + 1))
    ensures forall k :: 0 <= k < |at| ==> at[k] < |init|
  {
    hide Others, SkippedAre;
    OthersNext(at, |init|);
    SkippedStay(skipped, init, last, Others(at, |init|));
  }

  lemma SkippedStay(skipped: seq<nat>, init: seq<Record>, last: Record, others: seq<nat>)
    requires SkippedAre(skipped, init, others)
    ensures SkippedAre(skipped, init + [last], others)
    ensures SkippedAre(skipped + [last.line], init + [last], others + [|init|])
  {
    var records, more := init + [last], others + [|init|];
    assert records[|init|] == last;
    assert forall k :: 0 <= k < |others| ==> records[others[k]] == init[others[k]];
    forall k | 0 <= k < |more| ensures more[k] < |records| && (skipped + [last.line])[k] == records[more[k]].line {
      if k == |others| {
        assert (skipped + [last.line])[k] == last.line;
      } else {
        assert more[k] == others[k];
      }
    }
  }

  /**
   * The filter accepts, in order, the records that are new: without identity, or with one that is not among the last
   * `limit` identities accepted before. The others are reported by their lines.
   */
  lemma {:induction false} AcceptedAreNew(records: seq<Record>, limit: nat) returns (at: seq<nat>)
    ensures AcceptedAt(Filter(records, [], limit), at, records, limit)
    ensures IdentitiesAt(records, at) == Identities(Filter(records, [], limit).accepted)
  {
    at := [];
    if records == [] {
      assert Identities([]) == [];
    } else {
      hide LastN, AcceptedAt, Identities, IdentitiesAt, FilterStep;
      var init := records[..|records| - 1];
      at := AcceptedAreNew(init, limit);
      WindowHoldsLastIdentities(init, limit);
      at := AcceptedNext(Filter(init, [], limit), at, records, limit);
    }
  }

  lemma IdentitiesNext(records: seq<Record>, at: seq<nat>, n: nat)
    requires n < |records| && forall k :: 0 <= k < |at| ==> at[k] < |records|
    ensures IdentitiesAt(records, at + [n]) ==
            IdentitiesAt(records, at) + if records[n].identity.Some? then [records[n].identity.value] else []
  {
    assert (at + [n])[..|at|] == at;
  }

  lemma OthersNext(at: seq<nat>, n: nat)
    requires Ascending(at, n)
    ensures Others(at + [n], n + 1) == Others(at, n) && Others(at, n + 1) == Others(at, n) + [n]
    ensures forall k :: 0 <= k < |Others(at, n)| ==> Others(at, n)[k] < n
  {
    OthersStay(at, n, n);
    assert n !in at;
  }

  /** The stored rows are the new ones among the records of the prefix, numbered from 1. */
  lemma StoredAreNew(o: Options, decode: Decoder, prefix: Bytes) returns (at: seq<nat>)
    ensures var records, rows := Parse(prefix, 0, o.maxLineBytes, decode).records, Ingest(o, decode, prefix).store.rows;
            && Ascending(at, |records|) && |at| == |rows|
            && (forall i :: 0 <= i < |records| ==> (i in at <==> IsNew(records, at, i, o.maxEventIdentities)))
            && forall k :: 0 <= k < |at| ==> rows[k] == Row(k + 1, records[at[k]])
  {
    hide Parse, Filter, IsNew, SkippedAre, Others;
    at := AcceptedAreNew(Parse(prefix, 0, o.maxLineBytes, decode).records, o.maxEventIdentities);
  }

  // ---- The report of a poll ----

  /** Status and restart in terms of the file, the cursor and what the poll read. */
  lemma StatusIs(o: Options, decode: Decoder, m: MonitorState, s: StoreState, file: Bytes)
    ensures var out := PollOnce(o, decode, m, s, file);
            var shorter := |file| < m.cursor.offset;
            var changed := !shorter && Digest(file[..m.cursor.offset]) != m.cursor.digest;
            var behind := out.monitor.cursor.offset < |file|;
            && (out.poll.transition == Some(Truncated) <==> shorter)
            && (out.poll.transition == Some(Rotated) <==> changed)
            && (out.poll.status == SourceChanged(Truncated) <==> shorter)
            && (out.poll.status == SourceChanged(Rotated) <==> changed)
            && (out.poll.status == DuplicateIdentity <==> !shorter && !changed && out.poll.skipped != [])
            && (out.poll.status == PartialLine <==> !shorter && !changed && out.poll.skipped == [] && behind)
            && (out.poll.status == Updated <==>
                  !shorter && !changed && out.poll.skipped == [] && !behind && out.poll.written)
            && (out.poll.incomplete.Some? <==> behind)
            && (behind ==> out.poll.incomplete == Some(out.monitor.cursor.line + 1))
            && (out.poll.written <==> m.initial || shorter || changed || out.store != s)
            && out.poll.records == |out.store.rows| - if m.initial || shorter || changed then 0 else |s.rows|
  {
    hide Parse, Filter, CompleteEnd, Digest, CountNewlines, Number;
  }
}
