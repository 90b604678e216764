/** The chunked line reader of src/rollout.rs and what it means for the byte stream. */
module JsonlReader {
  import opened Wrappers
  import opened Bytes
  import opened Slices

  datatype ReadLine =
    | Line(line: nat, bytes: Bytes)
    | Oversized(line: nat, byteCount: nat)

  /** The first line of a stream, without its newline. */
  function Head(s: Bytes): Bytes
  {
    s[..FirstNewline(s)]
  }

  /** What follows the first line and its newline. */
  function Rest(s: Bytes): Bytes
  {
    s[Min(FirstNewline(s) + 1, |s|)..]
  }

  /** The lines of a stream without their terminators; a last line needs no newline. */
  function RawLines(s: Bytes): seq<Bytes>
    decreases |s|
  {
    if s == [] then [] else [Head(s)] + RawLines(Rest(s))
  }

  /** What the reader must report for one raw line. */
  function Report(raw: Bytes, limit: nat, line: nat): ReadLine
  {
    if |raw| > limit then Oversized(line, |raw|) else Line(line, raw)
  }

  /** What the reader must report for a whole stream whose first line is numbered `line`. */
  function Lines(s: Bytes, limit: nat, line: nat): seq<ReadLine>
    decreases |s|
  {
    if s == [] then [] else [Report(Head(s), limit, line)] + Lines(Rest(s), limit, line + 1)
  }

  /** Line i is numbered `line + i`, and is oversized exactly when its content exceeds the limit. */
  lemma {:induction false} LinesAreReports(s: Bytes, limit: nat, line: nat)
    ensures |Lines(s, limit, line)| == |RawLines(s)|
    ensures forall i :: 0 <= i < |RawLines(s)| ==>
              Lines(s, limit, line)[i] == Report(RawLines(s)[i], limit, line + i)
    decreases |s|
  {
    if s != [] {
      LinesAreReports(Rest(s), limit, line + 1);
    }
  }

  /** Every raw line followed by a newline: the text the lines came from. */
  function Unlines(raw: seq<Bytes>): Bytes
  {
    if raw == [] then [] else raw[0] + [NEWLINE] + Unlines(raw[1..])
  }

  lemma HeadAndRest(s: Bytes)
    ensures FirstNewline(s) < |s| ==> s == Head(s) + [NEWLINE] + Rest(s)
    ensures FirstNewline(s) == |s| ==> s == Head(s) && Rest(s) == []
  {
    hide FirstNewline;
    FirstNewlineIs(s);
    var n := FirstNewline(s);
    if n < |s| {
      SplitAt(s, n, NEWLINE);
    } else {
      TakeAll(s, n);
    }
  }

  lemma RestKeepsWholeLines(s: Bytes)
    requires s != []
    ensures WholeLines(s) <==> FirstNewline(s) < |s| && WholeLines(Rest(s))
  {
    hide FirstNewline;
    FirstNewlineIs(s);
    var n := FirstNewline(s);
    if n + 1 < |s| {
      assert Rest(s)[|s| - n - 2] == s[|s| - 1];
    }
  }

  /** Splitting loses nothing: the lines rebuild the stream, with its final newline added if it had none. */
  lemma {:induction false} RawLinesRoundTrip(s: Bytes)
    ensures Unlines(RawLines(s)) == if WholeLines(s) then s else s + [NEWLINE]
    decreases |s|
  {
    if s != [] {
      HeadAndRest(s);
      RestKeepsWholeLines(s);
      RawLinesRoundTrip(Rest(s));
      assert RawLines(s)[1..] == RawLines(Rest(s));
    }
  }

  lemma {:induction false} NoNewlineInRawLines(s: Bytes)
    ensures forall raw :: raw in RawLines(s) ==> NEWLINE !in raw
    decreases |s|
  {
    if s != [] {
      FirstNewlineIs(s);
      NoNewlineInRawLines(Rest(s));
    }
  }

  lemma FirstLineOfConcat(a: Bytes, b: Bytes)
    requires a != [] && WholeLines(a)
    ensures Head(a + b) == Head(a) && Rest(a + b) == Rest(a) + b
  {
    hide FirstNewline;
    FirstNewlineIs(a);
    FirstNewlineAt(a + b, FirstNewline(a));
    DropConcat(a, b, FirstNewline(a));
    DropConcat(a, b, FirstNewline(a) + 1);
  }

  lemma NewlinesOfRest(s: Bytes)
    requires s != [] && WholeLines(s)
    ensures CountNewlines(s) == 1 + CountNewlines(Rest(s))
  {
    HeadAndRest(s);
    RestKeepsWholeLines(s);
    FirstNewlineIs(s);
    NoNewlines(Head(s));
    CountNewlinesConcat(Head(s), [NEWLINE]);
    CountNewlinesConcat(Head(s) + [NEWLINE], Rest(s));
    assert CountNewlines([NEWLINE]) == 1;
  }

  lemma {:induction false} NoNewlines(s: Bytes)
    ensures CountNewlines(s) == 0 <==> NEWLINE !in s
  {
    if s != [] {
      NoNewlines(s[1..]);
    }
  }

  /** Whole lines can be split off the front without changing what is read or how it is numbered. */
  lemma {:induction false} LinesConcat(a: Bytes, b: Bytes, limit: nat, line: nat)
    requires WholeLines(a)
    ensures Lines(a + b, limit, line) == Lines(a, limit, line) + Lines(b, limit, line + CountNewlines(a))
    decreases |a|
  {
    hide Lines, CountNewlines, FirstNewline, Head, Rest, Report;
    if a == [] {
      LinesOfNothing(limit, line);
      assert a + b == b;
    } else {
      RestKeepsWholeLines(a);
      FirstLineOfConcat(a, b);
      NewlinesOfRest(a);
      RestIsShorter(a);
      LinesConcat(Rest(a), b, limit, line + 1);
      LinesUnfold(a + b, limit, line);
      LinesUnfold(a, limit, line);
      Assoc([Report(Head(a), limit, line)], Lines(Rest(a), limit, line + 1), Lines(b, limit, line + CountNewlines(a)));
    }
  }

  lemma LinesOfNothing(limit: nat, line: nat)
    ensures Lines([], limit, line) == [] && CountNewlines([]) == 0
  {
  }

  lemma RestIsShorter(s: Bytes)
    requires s != []
    ensures |Rest(s)| < |s|
  {
  }

  lemma LinesUnfold(s: Bytes, limit: nat, line: nat)
    requires s != []
    ensures Lines(s, limit, line) == [Report(Head(s), limit, line)] + Lines(Rest(s), limit, line + 1)
  {
  }

  /** What one filled buffer says about the current line, of which `read` bytes are already taken. */
  lemma BufferStep(s: Bytes, read: nat, chunk: Bytes)
    requires read <= FirstNewline(s) && read + |chunk| <= |s|
    requires forall i :: 0 <= i < |chunk| ==> chunk[i] == s[read + i]
    ensures read + FirstNewline(chunk) <= FirstNewline(s)
    ensures FirstNewline(chunk) < |chunk| ==> read + FirstNewline(chunk) == FirstNewline(s)
  {
    FirstNewlineIs(s);
    FirstNewlineIs(chunk);
    hide FirstNewline;
    var k := FirstNewline(s) - read;
    assert k < |chunk| ==> chunk[k] == s[read + k] == NEWLINE;
  }

  /**
   * The buffered reader. `input` is what has not been consumed yet; the operating
   * system decides how much of it each fill of the buffer shows.
   */
  class PlainJsonlReader {
    var input: Bytes
    const maxLineBytes: nat
    var nextLine: nat

    constructor (input: Bytes, maxLineBytes: nat)
      ensures this.input == input && this.maxLineBytes == maxLineBytes && nextLine == 1
    {
      this.input := input;
      this.maxLineBytes := maxLineBytes;
      nextLine := 1;
    }

    /** Any non-empty prefix of what is left, or nothing at the end of the stream. */
    method FillBuf() returns (chunk: Bytes)
      ensures chunk <= input
      ensures chunk == [] <==> input == []
    {
      if input == [] {
        return [];
      }
      var n :| 1 <= n <= |input|;
      chunk := input[..n];
    }

    method NextLine() returns (r: Option<ReadLine>)
      modifies this
      ensures old(input) == [] ==> r == None && input == [] && nextLine == old(nextLine)
      ensures old(input) != [] ==>
                && r == Some(Report(Head(old(input)), maxLineBytes, old(nextLine)))
                && input == Rest(old(input))
                && nextLine == old(nextLine) + 1
    {
      hide FirstNewline;
      var line := nextLine;
      var bytes: Bytes := [];
      var byteCount: nat := 0;
      var oversized := false;
      ghost var all := input;
      while true
        invariant byteCount <= FirstNewline(all) && input == all[byteCount..]
        invariant oversized <==> byteCount > maxLineBytes
        invariant !oversized ==> bytes == all[..byteCount]
        invariant nextLine == line == old(nextLine)
        decreases |input|
      {
        var chunk := FillBuf();
        var consumed, ended := 0, true;
        if chunk == [] {
          if byteCount == 0 {
            return None;
          }
        } else {
          BufferStep(all, byteCount, chunk);
          var contentLen := FirstNewline(chunk);
          if !oversized {
            var remaining := maxLineBytes - byteCount;
            if contentLen <= remaining {
              bytes := bytes + chunk[..contentLen];
            } else {
              bytes := bytes + chunk[..remaining];
              oversized := true;
            }
          }
          byteCount := byteCount + contentLen;
          consumed := Min(contentLen + 1, |chunk|);
          ended := contentLen < |chunk|;
        }
        assert ended ==> byteCount == FirstNewline(all);
        assert !oversized ==> bytes == all[..byteCount];
        input := input[consumed..];
        if ended {
          nextLine := nextLine + 1;
          return Some(if oversized then Oversized(line, byteCount) else Line(line, bytes));
        }
      }
    }
  }

  /**
   * Reading to the end, as the parser does: the result depends on the stream alone,
   * whatever the buffer showed at each step.
   */
  method ReadAll(s: Bytes, limit: nat) returns (lines: seq<ReadLine>)
    ensures lines == Lines(s, limit, 1)
  {
    var reader := new PlainJsonlReader(s, limit);
    lines := [];
    while true
      invariant reader.maxLineBytes == limit
      invariant lines + Lines(reader.input, limit, reader.nextLine) == Lines(s, limit, 1)
      invariant fresh(reader)
      decreases |reader.input|
    {
      var next := reader.NextLine();
      if next == None {
        return;
      }
      lines := lines + [next.value];
    }
  }
}
