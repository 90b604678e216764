/** When a text is already there, and what is written when it is not: `append_text` of src/advisor/diff.rs. */
module TextBlockMeaning {
  import opened Characters
  import opened TextBlocks

  // ---- Lines ----

  /** The pieces with a newline between each two. */
  function Rejoined(lines: seq<string>): string
    requires lines != []
  {
    if |lines| == 1 then lines[0] else lines[0] + "\n" + Rejoined(lines[1..])
  }

  /** Splitting takes the text apart at its newlines, and nothing is lost. */
  lemma {:induction false} SplitIs(s: string)
    ensures Rejoined(Split(s)) == s && forall i :: 0 <= i < |Split(s)| ==> '\n' !in Split(s)[i]
  {
    if s != [] {
      SplitIs(s[1..]);
      var rest := Split(s[1..]);
      assert s == [s[0]] + s[1..];
      if s[0] == '\n' {
        assert ([""] + rest)[1..] == rest;
      } else {
        var first := [s[0]] + rest[0];
        assert ([first] + rest[1..])[1..] == rest[1..];
        assert |rest| > 1 ==> [s[0]] + (rest[0] + "\n" + Rejoined(rest[1..])) == first + "\n" + Rejoined(rest[1..]);
      }
    }
  }

  // ---- White space at the end of lines ----

  predicate BlankFrom(s: string, k: nat)
  {
    forall i :: k <= i < |s| ==> IsWhitespace(s[i])
  }

  /** Equal up to some point, with nothing but white space after it. */
  ghost predicate SameButEnd(a: string, b: string)
  {
    exists k: nat :: SameUpTo(a, b, k)
  }

  ghost predicate SameUpTo(a: string, b: string, k: nat)
  {
    k <= |a| && k <= |b| && a[..k] == b[..k] && BlankFrom(a, k) && BlankFrom(b, k)
  }

  lemma {:induction false} TrimEndIs(s: string) returns (k: nat)
    ensures k <= |s| && TrimEnd(s) == s[..k] && BlankFrom(s, k) && (k > 0 ==> !IsWhitespace(s[k - 1]))
  {
    hide IsWhitespace;
    if s != [] && IsWhitespace(s[|s| - 1]) {
      k := TrimEndIs(s[..|s| - 1]);
      assert s[..|s| - 1][..k] == s[..k];
      forall i | k <= i < |s| ensures IsWhitespace(s[i]) {
        if i < |s| - 1 {
          assert s[..|s| - 1][i] == s[i];
        }
      }
    } else {
      k := |s|;
      assert s[..k] == s;
    }
  }

  lemma {:induction false} TrimmedFrom(s: string, k: nat)
    requires k <= |s| && BlankFrom(s, k)
    ensures TrimEnd(s) == TrimEnd(s[..k])
    decreases |s|
  {
    hide IsWhitespace;
    if k < |s| {
      var init := s[..|s| - 1];
      assert init[..k] == s[..k];
      forall i | k <= i < |init| ensures IsWhitespace(init[i]) {
        assert init[i] == s[i];
      }
      TrimmedFrom(init, k);
    } else {
      assert s[..k] == s;
    }
  }

  lemma SameTrimmed(a: string, b: string)
    ensures TrimEnd(a) == TrimEnd(b) <==> SameButEnd(a, b)
  {
    hide IsWhitespace, BlankFrom;
    if TrimEnd(a) == TrimEnd(b) {
      var k := TrimEndIs(a);
      var l := TrimEndIs(b);
      assert |a[..k]| == |b[..l]|;
      assert SameUpTo(a, b, k);
    }
    if SameButEnd(a, b) {
      var k: nat :| SameUpTo(a, b, k);
      TrimmedFrom(a, k);
      TrimmedFrom(b, k);
    }
  }

  // ---- Blank lines at the end ----

  /** The first n lines up to the last one that is not blank. */
  ghost predicate EndsAt(lines: seq<string>, n: nat)
  {
    && n <= |lines| && (n > 0 ==> !IsBlank(lines[n - 1]))
    && forall i :: n <= i < |lines| ==> IsBlank(lines[i])
  }

  lemma {:induction false} NormalizedEnds(lines: seq<string>) returns (n: nat)
    ensures EndsAt(lines, n) && DropBlankTail(TrimmedLines(lines)) == TrimmedLines(lines)[..n]
  {
    hide IsBlank, TrimEnd;
    var trimmed := TrimmedLines(lines);
    if lines != [] {
      TrimEndBlank(lines[|lines| - 1]);
    }
    if lines != [] && IsBlank(lines[|lines| - 1]) {
      var init := lines[..|lines| - 1];
      n := NormalizedEnds(init);
      assert trimmed[..|lines| - 1] == TrimmedLines(init) && TrimmedLines(init)[..n] == trimmed[..n];
      assert n > 0 ==> init[n - 1] == lines[n - 1];
      forall i | n <= i < |lines| ensures IsBlank(lines[i]) {
        if i < |lines| - 1 {
          assert init[i] == lines[i];
        }
      }
    } else {
      n := |lines|;
      assert trimmed[..n] == trimmed;
    }
  }

  /** From line i on, these n lines are there, but for white space at the end of each. */
  ghost predicate LinesAt(lines: seq<string>, wanted: seq<string>, n: nat, i: nat)
  {
    && n <= |wanted| && i + n <= |lines|
    && forall j :: 0 <= j < n ==> SameButEnd(lines[i + j], wanted[j])
  }

  lemma BlankAlike(a: string, b: string)
    requires SameButEnd(a, b)
    ensures IsBlank(a) <==> IsBlank(b)
  {
    SameTrimmed(a, b);
    TrimEndBlank(a);
    TrimEndBlank(b);
    hide TrimEnd, IsBlank, SameButEnd;
  }

  lemma WindowIs(lines: seq<string>, m: nat, wanted: seq<string>, n: nat, i: nat)
    requires m <= |lines| && n <= |wanted|
    ensures WindowAt(TrimmedLines(lines)[..m], TrimmedLines(wanted)[..n], i) <==>
            i + n <= m && LinesAt(lines, wanted, n, i)
  {
    hide TrimEnd, SameButEnd;
    if i + n <= m {
      var window, needle := TrimmedLines(lines)[..m][i..i + n], TrimmedLines(wanted)[..n];
      forall j | 0 <= j < n ensures window[j] == needle[j] <==> SameButEnd(lines[i + j], wanted[j]) {
        SameTrimmed(lines[i + j], wanted[j]);
      }
      if LinesAt(lines, wanted, n, i) {
        assert window == needle;
      }
    }
  }

  /**
   * A text is there when its lines, without blank ones at its end, stand in a row somewhere in the content, but for
   * white space at the end of lines. A blank text is nowhere.
   */
  lemma ContainsIs(content: string, text: string) returns (n: nat)
    ensures EndsAt(Split(text), n)
    ensures ContainsTextBlock(content, text) <==> n > 0 && exists i: nat :: LinesAt(Split(content), Split(text), n, i)
  {
    hide *;
    n := NormalizedEnds(Split(text));
    var m := NormalizedEnds(Split(content));
    var lines, wanted := Split(content), Split(text);
    EndIsThere(wanted, n);
    EndIsThere(lines, m);
    ContainsSlices(content, text, m, n);
    forall i: nat ensures WindowAt(TrimmedLines(lines)[..m], TrimmedLines(wanted)[..n], i) <==>
                          i + n <= m && LinesAt(lines, wanted, n, i) {
      WindowIs(lines, m, wanted, n, i);
    }
    forall i: nat | n > 0 && LinesAt(lines, wanted, n, i) ensures i + n <= m {
      EndsBefore(lines, m, wanted, n, i);
    }
  }

  lemma EndIsThere(lines: seq<string>, n: nat)
    requires EndsAt(lines, n)
    ensures n <= |lines| && |TrimmedLines(lines)| == |lines|
  {
    hide IsBlank, TrimEnd;
  }

  lemma ContainsSlices(content: string, text: string, m: nat, n: nat)
    requires m <= |TrimmedLines(Split(content))| && n <= |TrimmedLines(Split(text))|
    requires DropBlankTail(TrimmedLines(Split(content))) == TrimmedLines(Split(content))[..m]
    requires DropBlankTail(TrimmedLines(Split(text))) == TrimmedLines(Split(text))[..n]
    ensures ContainsTextBlock(content, text) <==>
            n > 0 && exists i: nat :: WindowAt(TrimmedLines(Split(content))[..m], TrimmedLines(Split(text))[..n], i)
  {
    hide Split, TrimmedLines, DropBlankTail;
    if i: nat :| WindowAt(TrimmedLines(Split(content))[..m], TrimmedLines(Split(text))[..n], i) {
      assert i <= |NormalizedLines(content)|;
    }
  }

  lemma EndsBefore(lines: seq<string>, m: nat, wanted: seq<string>, n: nat, i: nat)
    requires EndsAt(lines, m) && EndsAt(wanted, n) && n > 0 && LinesAt(lines, wanted, n, i)
    ensures i + n <= m
  {
    hide IsBlank, SameButEnd;
    BlankAlike(lines[i + (n - 1)], wanted[n - 1]);
  }

  // ---- What is written ----

  /** A blank line before the text, unless nothing or a blank line comes before it already. */
  predicate IsGap(gap: string, content: string)
  {
    if content == "" then gap == ""
    else if content[|content| - 1] != '\n' then gap == "\n\n"
    else if |content| == 1 || content[|content| - 2] != '\n' then gap == "\n"
    else gap == ""
  }

  function GapAfter(content: string): (gap: string)
    ensures IsGap(gap, content)
  {
    if content == "" then ""
    else if content[|content| - 1] != '\n' then "\n\n"
    else if |content| == 1 || content[|content| - 2] != '\n' then "\n"
    else ""
  }

  lemma ClosedIs(s: string)
    requires s != ""
    ensures Closed(s) == s + if s[|s| - 1] == '\n' then "" else "\n"
  {
    assert s[|s| - 1..] == [s[|s| - 1]];
    assert s + "" == s;
  }

  /** The content, a gap, the text, and a newline at the end. */
  lemma AppendedIs(content: string, text: string) returns (gap: string, end: string)
    requires !IsBlank(text) && !ContainsTextBlock(content, text)
    ensures text != "" && IsGap(gap, content) && end == (if text[|text| - 1] == '\n' then "" else "\n")
    ensures Appended(content, text) == content + gap + text + end
  {
    hide *;
    NothingIsBlank();
    AppendedClosed(content, text);
    gap := GapAfter(content);
    SeparatedIs(content, gap);
    end := if text[|text| - 1] == '\n' then "" else "\n";
    var all := content + gap + text;
    assert all[|all| - 1] == text[|text| - 1];
    ClosedIs(all);
  }

  lemma AppendedClosed(content: string, text: string)
    requires !IsBlank(text) && !ContainsTextBlock(content, text)
    ensures Appended(content, text) == Closed(Separated(content) + text)
  {
    hide IsBlank, ContainsTextBlock, Closed, Separated;
  }

  lemma SeparatedIs(content: string, gap: string)
    requires IsGap(gap, content)
    ensures Separated(content) == content + gap
  {
    if content != "" {
      var n := |content|;
      assert content[n - 1..] == [content[n - 1]];
      if content[n - 1] != '\n' {
        var closed := content + "\n";
        assert closed[n - 1..] == [content[n - 1], '\n'];
        assert closed + "\n" == content + "\n\n";
      } else if n > 1 {
        assert content[n - 2..] == [content[n - 2], content[n - 1]];
      }
    }
  }
}
