/** When one result repeats another, which of the two is kept, and under which key, src/normalize.rs. */
module DuplicatePairs {
  import opened Wrappers
  import opened Correlation
  import opened Duplicates

  // ---- The pair ----

  predicate OfOneCall(a: ToolResult, b: ToolResult)
  {
    a.callId != None && a.callId == b.callId && a.sessionId == b.sessionId && a.turnId == b.turnId
  }

  /** The same report from another line, however it may be marked. */
  predicate SameReport(a: ToolResult, b: ToolResult)
  {
    b == a.(provenance := b.provenance, deduplicationKey := b.deduplicationKey, equivalentTo := b.equivalentTo,
            isDuplicate := b.isDuplicate)
  }

  predicate Disagree(a: ToolResult, b: ToolResult)
  {
    (a.outcome == Succeeded && b.outcome == Failed) || (a.outcome == Failed && b.outcome == Succeeded)
  }

  /** The outcomes may differ because only one was given as an exit code, or one was guessed from the output. */
  predicate ToldDifferently(a: ToolResult, b: ToolResult)
  {
    || (a.exitCode == None && b.exitCode != None) || (a.exitCode != None && b.exitCode == None)
    || FromOutputText in [a.outcomeSource, b.outcomeSource]
  }

  predicate RepeatsReport(a: ToolResult, b: ToolResult)
  {
    && OfOneCall(a, b)
    && (a.outcome == Unknown && b.outcome == Unknown ==> SameReport(a, b))
    && (Disagree(a, b) ==> ToldDifferently(a, b))
  }

  lemma EquivalentIs(a: ToolResult, b: ToolResult)
    ensures Equivalent(a, b) <==> RepeatsReport(a, b)
  {
  }

  // ---- Which is better ----

  predicate Says(text: Option<string>)
  {
    text.Some? && text.value != ""
  }

  /** An exit code beats everything else, a status beats output, and output beats nothing. */
  predicate IsBetter(a: ToolResult, b: ToolResult)
  {
    && b.exitCode == None
    && (|| a.exitCode != None
        || (&& b.status == None
            && (a.status != None || ((Says(a.stdout) || Says(a.stderr)) && !Says(b.stdout) && !Says(b.stderr)))))
  }

  lemma BetterIs(a: ToolResult, b: ToolResult)
    ensures Quality(a) > Quality(b) <==> IsBetter(a, b)
  {
  }

  // ---- The key ----

  predicate Tells(text: string, part: Option<string>)
  {
    part == Some(text) || (part == None && text == "")
  }

  /** Both outputs on lines of their own, or the one there is. */
  predicate IsOutput(text: string, r: ToolResult)
  {
    match (r.stdout, r.stderr)
    case (None, None) => text == ""
    case (Some(out), None) => text == out
    case (None, Some(err)) => text == err
    case (Some(out), Some(err)) => text == (if out != "" && err != "" then out + "\n" + err else out + err)
  }

  ghost predicate IsKeyOf(key: KeyParts -> string, text: string, r: ToolResult)
  {
    exists p: KeyParts :: text == key(p) && Tells(p.session, r.sessionId) && Tells(p.turn, r.turnId)
      && Tells(p.call, r.callId) && p.exitCode == r.exitCode && Tells(p.status, r.status) && IsOutput(p.output, r)
  }

  lemma KeyIs(key: KeyParts -> string, r: ToolResult)
    ensures IsKeyOf(key, ResultKey(key, r), r)
  {
    var parts := KeyParts(OrEmpty(r.sessionId), OrEmpty(r.turnId), OrEmpty(r.callId), r.exitCode, OrEmpty(r.status),
                          CombinedOutput(r));
    if r.stdout.Some? && r.stderr.Some? {
      assert r.stdout.value + "" == r.stdout.value && "" + r.stderr.value == r.stderr.value;
    }
    assert IsOutput(parts.output, r);
    assert ResultKey(key, r) == key(parts);
  }

  // ---- A pass over two results ----

  /** The result as it was, marked as a repetition of the other under that one's key. */
  ghost predicate PointsAt(after: ToolResult, before: ToolResult, kept: ToolResult, key: KeyParts -> string)
  {
    && after.isDuplicate && after.equivalentTo == Some(kept.provenance)
    && after.deduplicationKey.Some? && IsKeyOf(key, after.deduplicationKey.value, kept)
    && SameReport(after, before) && after.provenance == before.provenance
  }

  ghost predicate IsKept(after: ToolResult, before: ToolResult, key: KeyParts -> string)
  {
    && !after.isDuplicate && after.equivalentTo == before.equivalentTo
    && (if before.callId.Some? then after.deduplicationKey.Some? && IsKeyOf(key, after.deduplicationKey.value, before)
        else after.deduplicationKey == before.deduplicationKey)
    && SameReport(after, before) && after.provenance == before.provenance
  }

  /** Two reports of one call become one: the better one stays, of equally good ones the first. */
  lemma PairIsReduced(a: ToolResult, b: ToolResult, key: KeyParts -> string)
    requires IsUnmarked(a) && IsUnmarked(b)
    ensures var r := MarkAll([], [a, b], key).results;
            && |r| == 2
            && if !RepeatsReport(a, b) then IsKept(r[0], a, key) && IsKept(r[1], b, key)
               else if IsBetter(b, a) then PointsAt(r[0], a, b, key) && IsKept(r[1], b, key)
               else IsKept(r[0], a, key) && PointsAt(r[1], b, a, key)
  {
    EquivalentIs(a, b);
    BetterIs(b, a);
    KeyIs(key, a);
    KeyIs(key, b);
    hide RepeatsReport, IsBetter, IsKeyOf, ResultKey;
    var kept := a.(deduplicationKey := if a.callId.Some? then Some(ResultKey(key, a)) else None);
    assert MarkFirst([], [a, b], 1, key) == Marking([kept, b], [0]) by {
      FirstOfTwo(a, b, key);
    }
    MarksDoNotMatter(a, kept, key);
    assert Pick([kept, b], [0]) == [kept];
    NeedsIdsIfEquivalent(a, b);
    hide Equivalent, Quality;
  }

  lemma NeedsIdsIfEquivalent(a: ToolResult, b: ToolResult)
    ensures Equivalent(a, b) ==> a.callId.Some? && b.callId.Some?
  {
  }

  lemma FirstOfTwo(a: ToolResult, b: ToolResult, key: KeyParts -> string)
    requires IsUnmarked(a)
    ensures MarkFirst([], [a, b], 1, key) ==
            Marking([a.(deduplicationKey := if a.callId.Some? then Some(ResultKey(key, a)) else None), b], [0])
  {
    hide ResultKey, Equivalent;
    assert MarkFirst([], [a, b], 0, key) == Marking([a, b], []);
    assert Pick([a, b], []) == [];
  }

  /** Against an earlier poll, the first report there stays whatever comes now. */
  lemma EarlierPollStands(prior: ToolResult, b: ToolResult, key: KeyParts -> string)
    requires IsUnmarked(b) && RepeatsReport(prior, b)
    ensures var r := MarkAll([prior], [b], key).results;
            && |r| == 1 && r[0].isDuplicate && r[0].equivalentTo == Some(prior.provenance)
            && r[0].deduplicationKey.Some?
            && (if prior.deduplicationKey.Some? then r[0].deduplicationKey == prior.deduplicationKey
                else IsKeyOf(key, r[0].deduplicationKey.value, prior))
            && SameReport(r[0], b)
  {
    EquivalentIs(prior, b);
    KeyIs(key, prior);
    hide RepeatsReport, IsKeyOf, ResultKey, Equivalent;
    assert MarkFirst([prior], [b], 0, key) == Marking([b], []);
  }
}
